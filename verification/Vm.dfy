/** kernel/kalloc.c and kernel/vm.c over one physical memory, and the page
    tables that kernel/proc.c builds and frees. */
module Vm {
  import opened PageTable
  import opened Freewalk

  class Memory {
    var freelist: seq<nat>             // kmem.freelist, first page first
    var tables: map<nat, seq<nat>>     // contents of the pages used as page tables
    var data: map<nat, seq<int>>       // contents of the pages used as user memory
    ghost var page: map<Key, nat>      // where each table is
    ghost var own: map<nat, Owner>     // what each page is used for

    ghost function Now(): St
      reads this
    {
      St(freelist, tables, data, page, own)
    }

    /** `kinit`: `freerange` gives every whole page from `start` to `end` to the
        free list, once. */
    constructor (start: nat, end: nat)
      requires 0 < start
      ensures Inv(Now()) && page == map[]
      ensures forall pa: nat :: pa in own <==> pa % PGSIZE == 0 && PgUp(start) <= pa && pa + PGSIZE <= end
      ensures forall pa | pa in own :: own[pa] == Free
    {
      freelist, tables, data := [], map[], map[];
      page, own := map[], map[];
      new;
      hide FreeList;
      assert FreeList(Now()) by {
        NoPages(Now());
      }
      var p := PgUp(start);
      PgUpMono(0, start);
      while p + PGSIZE <= end
        invariant p % PGSIZE == 0 && 0 < p && PgUp(start) <= p
        invariant page == map[] && tables == map[] && FreeList(Now())
        invariant forall pa: nat :: pa in own <==> pa % PGSIZE == 0 && PgUp(start) <= pa < p
        invariant forall pa | pa in own :: own[pa] == Free
        invariant p == PgUp(start) || p <= end
        decreases end - p
      {
        NewPage(Now(), p);
        freelist := [p] + freelist;
        own := own[p := Free];
        p := p + PGSIZE;
      }
      NoTables(Now());
    }

    /** `kalloc`: the first free page, or 0. */
    method Kalloc() returns (pa: nat)
      requires Tree(Now())
      modifies this`freelist, this`own
      ensures if old(freelist) == [] then pa == 0 && Now() == old(Now())
              else pa == old(freelist)[0] != 0 && pa in own && Now() == Taken(old(Now()))
      ensures Tree(Now()) && SameMap(old(Now()), Now())
    {
      if freelist == [] {
        return 0;
      }
      TakenPage(Now());
      pa := freelist[0];
      assert pa in freelist;
      freelist := freelist[1..];
      own := own[pa := Other];
    }

    /** `kfree`; the page must be in use, and not as a page table. */
    method Kfree(pa: nat)
      requires Tree(Now()) && pa in own && !own[pa].Free? && !own[pa].Table?
      modifies this`freelist, this`own
      ensures Now() == Freed(old(Now()), pa)
      ensures Tree(Now()) && SameMap(old(Now()), Now())
    {
      FreedPage(Now(), pa);
      freelist := [pa] + freelist;
      own := own[pa := Free];
    }

    /** Turn the first free page into a zeroed page table under `pt`. */
    method AddTable(pt: nat, idx: nat, ghost k: Key) returns (p: nat)
      requires Tree(Now()) && freelist != [] && k in page && page[k] == pt && !k.node.Low? && idx < PTES
      requires Child(k, idx) !in page
      modifies this`freelist, this`tables, this`page, this`own
      ensures p == old(freelist)[0] && Now() == WithTable(old(Now()), k, idx)
      ensures Tree(Now()) && SameMap(old(Now()), Now()) && Grow(old(Now()), Now(), k.root)
    {
      hide Links, Leaves, FreeList, SameMap, Grow;
      AddedTable(Now(), k, idx);
      TableSizes(Now());
      hide Pages;
      p := freelist[0];
      freelist := freelist[1..];
      tables := tables[p := Zeros()];
      tables := PutEntry(tables, pt, idx, Pa2Pte(p) + PTE_V);
      page := page[Child(k, idx) := p];
      own := own[p := Table(Child(k, idx))];
    }

    /** `walk`: the bottom table for `va`, or 0; its entry for `va` is number
        `Px(0, va)`.  With `alloc` missing tables are added, which changes no
        mapping, and 0 means that memory ran out. */
    method Walk(root: nat, va: nat, alloc: bool) returns (pt: nat)
      requires Tree(Now()) && Key(root, Root) in page && va < MAXVA
      modifies this`freelist, this`tables, this`page, this`own
      ensures Tree(Now()) && SameMap(old(Now()), Now()) && Grow(old(Now()), Now(), root)
      ensures pt != 0 ==> Key(root, Low(va / 0x20_0000)) in page && pt == page[Key(root, Low(va / 0x20_0000))]
      ensures !alloc ==> Now() == old(Now()) && (pt == 0 ==> Key(root, Low(va / 0x20_0000)) !in page)
      ensures alloc && pt == 0 ==> freelist == []
    {
      hide Links, Leaves, FreeList, SameMap, Grow;
      pt := root;
      var level := 2;
      WalkStart(Now(), root);
      while level > 0
        invariant 0 <= level <= 2
        invariant Tree(Now()) && SameMap(old(Now()), Now()) && Grow(old(Now()), Now(), root)
        invariant Key(root, NodeAt(level, va)) in page && pt == page[Key(root, NodeAt(level, va))]
        invariant !alloc ==> Now() == old(Now())
      {
        ghost var k := Key(root, NodeAt(level, va));
        var idx := Px(level, va);
        NextNode(root, level, va);
        WalkEntry(Now(), k, idx);
        ghost var before := Now();
        var pte := tables[pt][idx];
        if IsValid(pte) {
          pt := Pte2Pa(pte);
        } else {
          if !alloc || freelist == [] {
            NoLow(Now(), root, level, va);
            return 0;
          }
          pt := AddTable(pt, idx, k);
          GrowTwice(old(Now()), before, Now(), root);
          SameMapTwice(old(Now()), before, Now());
        }
        level := level - 1;
      }
    }

    /** Store an entry of a bottom table. */
    method SetPte(pt: nat, idx: nat, e: nat)
      requires pt in tables && idx < |tables[pt]|
      modifies this`tables
      ensures tables == PutEntry(old(tables), pt, idx, e)
    {
      tables := PutEntry(tables, pt, idx, e);
    }

    /** `mappages`: add exactly the requested pages, or a prefix of them when
        memory for tables runs out.  `n` is how many it added. */
    method Mappages(root: nat, va: nat, size: nat, pa: nat, perm: nat) returns (ret: int, ghost n: nat)
      requires Tree(Now()) && Key(root, Root) in page
      requires va % PGSIZE == 0 && size % PGSIZE == 0 && 0 < size && va + size <= MAXVA
      requires pa % PGSIZE == 0 && perm < 1024 && IsLeaf(perm)
      requires forall v | va / PGSIZE <= v < (va + size) / PGSIZE :: PteOf(Now(), root, v) == 0
      modifies this`freelist, this`tables, this`page, this`own
      ensures Tree(Now()) && Grow(old(Now()), Now(), root)
      ensures MapRange(old(Now()), Now(), root, va / PGSIZE, n, pa, perm)
      ensures ret == 0 || ret == -1
      ensures ret == 0 ==> n == size / PGSIZE
      ensures ret == -1 ==> n < size / PGSIZE && freelist == []
    {
      hide Pages, Links, Leaves, FreeList, SameMap, Grow, PutEntry, MapRange, MapSet;
      var a, p, last := va, pa, va + size - PGSIZE;
      n := 0;
      MapStart(Now(), root, va / PGSIZE, pa, perm);
      while true
        invariant n < size / PGSIZE && a == va + PGSIZE * n && p == pa + PGSIZE * n
        invariant Tree(Now()) && Key(root, Root) in page && Grow(old(Now()), Now(), root)
        invariant MapRange(old(Now()), Now(), root, va / PGSIZE, n, pa, perm)
        decreases size / PGSIZE - n
      {
        ghost var before := Now();
        PageOf(va, n);
        var pt := Walk(root, a, true);
        GrowTwice(old(Now()), before, Now(), root);
        if pt == 0 {
          MapAfterSame(old(Now()), before, Now(), root, va / PGSIZE, n, pa, perm);
          return -1, n;
        }
        ghost var walked := Now();
        LowTable(walked, root, va / PGSIZE + n);
        MapStep(old(Now()), before, walked, root, va / PGSIZE, n, pa, perm);
        SetPte(pt, Px(0, a), MakePte(p, perm));
        assert Now() == WithPte(walked, root, va / PGSIZE + n, MakePte(p, perm));
        n := n + 1;
        if a == last {
          break;
        }
        a, p := a + PGSIZE, p + PGSIZE;
      }
      ret := 0;
    }

    /** `uvmunmap`: remove exactly the given pages, which must be mapped; user
        pages are freed, the pages above user memory are not. */
    method Uvmunmap(root: nat, va: nat, npages: nat, doFree: bool)
      requires Inv(Now()) && Key(root, Root) in page
      requires va % PGSIZE == 0 && va + npages * PGSIZE <= MAXVA
      requires if doFree then va / PGSIZE + npages <= USERPAGES else USERPAGES <= va / PGSIZE
      requires forall v | va / PGSIZE <= v < va / PGSIZE + npages :: PteOf(Now(), root, v) != 0
      modifies this`freelist, this`tables, this`page, this`own
      ensures Inv(Now())
      ensures UnmapRange(old(Now()), Now(), root, va / PGSIZE, npages)
      ensures FreedUsers(old(Now()), Now(), root, va / PGSIZE, npages, doFree)
      ensures |freelist| == |old(freelist)| + if doFree then npages else 0
    {
      hide Pages, Links, Leaves, FreeList, Users, SameMap, Grow, PutEntry, UnmapRange, FreedUsers;
      var a := va;
      ghost var n := 0;
      UnmapStart(Now(), root, va / PGSIZE, doFree);
      while a < va + npages * PGSIZE
        invariant n <= npages && a == va + PGSIZE * n
        invariant Inv(Now()) && Key(root, Root) in page
        invariant UnmapRange(old(Now()), Now(), root, va / PGSIZE, n)
        invariant FreedUsers(old(Now()), Now(), root, va / PGSIZE, n, doFree)
        invariant |freelist| == |old(freelist)| + if doFree then n else 0
      {
        PageOf(va, n);
        ghost var s := Now();
        UnmapStep(old(Now()), s, root, va / PGSIZE, n, doFree);
        var pt := Walk(root, a, false);
        LowTable(s, root, va / PGSIZE + n);
        var pte := tables[pt][Px(0, a)];
        if doFree {
          Kfree(Pte2Pa(pte));
        }
        SetPte(pt, Px(0, a), 0);
        assert Now() == Unmapped(s, root, va / PGSIZE + n, doFree);
        a, n := a + PGSIZE, n + 1;
      }
    }

    /** The step `uvmalloc` and `uvmcopy` share: allocate a page, fill it, map
        it, and give the page back if the mapping fails. */
    method MapFresh(root: nat, va: nat, perm: nat, bytes: seq<int>) returns (ok: bool)
      requires Inv(Now()) && Key(root, Root) in page
      requires va % PGSIZE == 0 && va / PGSIZE < USERPAGES && PteOf(Now(), root, va / PGSIZE) == 0
      requires perm < 1024 && IsLeaf(perm) && |bytes| == PGSIZE
      modifies this
      ensures Inv(Now())
      ensures ok ==> FreshMapped(old(Now()), Now(), root, va / PGSIZE, perm, bytes)
      ensures !ok ==> SameMap(old(Now()), Now()) && Grow(old(Now()), Now(), root) && |freelist| <= 1
    {
      hide Links, Leaves, FreeList, Users, SameMap, Grow, MapRange, FreshMapped;
      ghost var s0 := Now();
      var mem := Kalloc();
      if mem == 0 {
        WalkStart(s0, root);
        return false;
      }
      data := data[mem := bytes];
      ghost var s1 := Now();
      FreshTaken(s0, bytes, root, va / PGSIZE);
      PageOf(va, 1);
      var r;
      ghost var n;
      r, n := Mappages(root, va, PGSIZE, mem, perm);
      ghost var s2 := Now();
      FreshOwner(s1, s2, root, mem);
      if r != 0 {
        FreshFail(s0, s1, s2, root, va / PGSIZE, mem, perm);
        Kfree(mem);
        return false;
      }
      FreshDone(s0, s1, s2, root, va / PGSIZE, mem, perm, bytes);
      own := own[mem := User(root, va / PGSIZE)];
      ok := true;
    }

    /** `uvmdealloc`: give up the user pages from `newsz` to `oldsz`. */
    method Uvmdealloc(root: nat, oldsz: nat, newsz: nat) returns (ret: nat)
      requires Inv(Now()) && Key(root, Root) in page && oldsz <= TRAPFRAME
      requires forall v | PgUp(newsz) / PGSIZE <= v < PgUp(oldsz) / PGSIZE :: PteOf(Now(), root, v) != 0
      modifies this`freelist, this`tables, this`page, this`own
      ensures Inv(Now()) && ret == if newsz < oldsz then newsz else oldsz
      ensures FreedFrom(old(Now()), Now(), root, oldsz, ret)
      ensures |freelist| == |old(freelist)| + (PgUp(oldsz) - PgUp(ret)) / PGSIZE
    {
      hide Pages, Links, Leaves, FreeList, Users, UnmapRange, FreedUsers;
      UnmapStart(Now(), root, PgUp(if newsz < oldsz then newsz else oldsz) / PGSIZE, true);
      PgUpMono(if newsz < oldsz then newsz else oldsz, oldsz);
      if newsz >= oldsz {
        return oldsz;
      }
      if PgUp(newsz) < PgUp(oldsz) {
        var npages := (PgUp(oldsz) - PgUp(newsz)) / PGSIZE;
        Uvmunmap(root, PgUp(newsz), npages, true);
      }
      return newsz;
    }

    /** The failure path of `uvmalloc`: the new pages are freed again. */
    method GiveBack(root: nat, start: nat, a: nat, ghost s0: St)
      requires Inv(s0) && Inv(Now()) && Key(root, Root) in page && a <= TRAPFRAME
      requires start % PGSIZE == 0 && a % PGSIZE == 0 && start <= a
      requires Filled(s0, Now(), root, start / PGSIZE, a / PGSIZE)
      requires forall v | start / PGSIZE <= v < a / PGSIZE :: PteOf(s0, root, v) == 0
      modifies this`freelist, this`tables, this`page, this`own
      ensures Inv(Now()) && SameMap(s0, Now()) && Grow(s0, Now(), root)
      ensures |freelist| == |old(freelist)| + (a - start) / PGSIZE
    {
      hide Pages, Links, Leaves, FreeList, Users, UnmapRange, FreedUsers, SameMap, Grow;
      ghost var t := Now();
      AlignedUp(start);
      AlignedUp(a);
      var r := Uvmdealloc(root, a, start);
      Undone(s0, t, Now(), root, start / PGSIZE, a / PGSIZE);
    }

    /** One page of `uvmalloc`, or the failure path. */
    method AllocPage(root: nat, start: nat, a: nat, xperm: nat, ghost s0: St) returns (ok: bool)
      requires Inv(s0) && Inv(Now()) && Key(root, Root) in page
      requires start % PGSIZE == 0 && a % PGSIZE == 0 && start <= a && a / PGSIZE < USERPAGES
      requires xperm == 0 || xperm == PTE_W || xperm == PTE_X || xperm == PTE_W + PTE_X
      requires forall v | start / PGSIZE <= v <= a / PGSIZE :: PteOf(s0, root, v) == 0
      requires Filled(s0, Now(), root, start / PGSIZE, a / PGSIZE)
      requires HavePages(Now(), root, start / PGSIZE, a / PGSIZE, PTE_V + PTE_R + PTE_U + xperm, ZeroPage())
      modifies this
      ensures Inv(Now())
      ensures ok ==> Key(root, Root) in page && Filled(s0, Now(), root, start / PGSIZE, a / PGSIZE + 1)
      ensures ok ==> HavePages(Now(), root, start / PGSIZE, a / PGSIZE + 1, PTE_V + PTE_R + PTE_U + xperm, ZeroPage())
      ensures !ok ==> SameMap(s0, Now()) && Grow(s0, Now(), root) && |freelist| <= (a - start) / PGSIZE + 1
    {
      hide Pages, Links, Leaves, FreeList, Users, Filled, FreshMapped, HasPage, HavePages, SameMap, Grow;
      ghost var s := Now();
      ghost var lo := start / PGSIZE;
      FilledNext(s0, s, root, lo, a / PGSIZE);
      ok := MapFresh(root, a, PTE_R + PTE_U + xperm, ZeroPage());
      if !ok {
        FilledGrow(s0, s, Now(), root, lo, a / PGSIZE);
        GiveBack(root, start, a, s0);
        return;
      }
      FilledMore(s0, s, Now(), root, lo, a / PGSIZE, PTE_R + PTE_U + xperm, ZeroPage());
      PagesMore(s, Now(), root, lo, a / PGSIZE, PTE_R + PTE_U + xperm, ZeroPage());
    }

    /** `uvmalloc`: zeroed pages up to `newsz`; or no mapping changed and no page
        lost except to tables of this address space, and that only when no more
        pages are free than were asked for.  Memory that would reach the
        trapframe is refused: the machine runs out of pages first. */
    method Uvmalloc(root: nat, oldsz: nat, newsz: nat, xperm: nat) returns (ret: nat)
      requires Inv(Now()) && Key(root, Root) in page
      requires newsz <= TRAPFRAME || (|own| < USERPAGES && MappedBelow(Now(), root, PgUp(oldsz) / PGSIZE))
      requires xperm == 0 || xperm == PTE_W || xperm == PTE_X || xperm == PTE_W + PTE_X
      requires forall v | PgUp(oldsz) / PGSIZE <= v < PgUp(newsz) / PGSIZE && v < USERPAGES :: PteOf(Now(), root, v) == 0
      modifies this
      ensures Inv(Now())
      ensures newsz >= oldsz && newsz > TRAPFRAME ==> ret == 0
      ensures newsz < oldsz ==> ret == oldsz && Now() == old(Now())
      ensures newsz >= oldsz ==>
                (&& ret == newsz && Filled(old(Now()), Now(), root, PgUp(oldsz) / PGSIZE, PgUp(newsz) / PGSIZE)
                 && HavePages(Now(), root, PgUp(oldsz) / PGSIZE, PgUp(newsz) / PGSIZE, PTE_V + PTE_R + PTE_U + xperm, ZeroPage()))
                || (&& ret == 0 && SameMap(old(Now()), Now()) && Grow(old(Now()), Now(), root)
                    && |freelist| <= (PgUp(newsz) - PgUp(oldsz)) / PGSIZE)
    {
      hide Pages, Links, Leaves, FreeList, Users, Filled, HasPage, HavePages, SameMap, Grow, MappedBelow;
      if newsz < oldsz {
        return oldsz;
      }
      ghost var s0 := Now();
      ghost var lo := PgUp(oldsz) / PGSIZE;
      var start := PgUp(oldsz);
      var a := start;
      FilledStart(s0, root, lo);
      PagesNone(s0, root, lo, PTE_V + PTE_R + PTE_U + xperm, ZeroPage());
      while a < newsz
        invariant a % PGSIZE == 0 && start <= a && (a <= PgUp(newsz) || a == start)
        invariant Inv(Now()) && Key(root, Root) in page
        invariant Filled(s0, Now(), root, lo, a / PGSIZE)
        invariant HavePages(Now(), root, lo, a / PGSIZE, PTE_V + PTE_R + PTE_U + xperm, ZeroPage())
      {
        ghost var s := Now();
        if newsz > TRAPFRAME {
          RunsOut(s0, s, root, lo, a / PGSIZE);
        }
        var ok := AllocPage(root, start, a, xperm, s0);
        if !ok {
          return 0;
        }
        a := a + PGSIZE;
      }
      if newsz > TRAPFRAME {
        RunsOut(s0, Now(), root, lo, a / PGSIZE);
      }
      return newsz;
    }

    /** One page of `uvmcopy`. */
    method CopyPage(parent: nat, child: nat, i: nat, ghost s0: St) returns (ok: bool)
      requires Inv(s0) && Inv(Now()) && Key(parent, Root) in page && Key(child, Root) in page && parent != child
      requires i % PGSIZE == 0 && i / PGSIZE < USERPAGES
      requires PteOf(s0, parent, i / PGSIZE) != 0 && PteOf(s0, child, i / PGSIZE) == 0
      requires Filled(s0, Now(), child, 0, i / PGSIZE) && Copied(s0, Now(), parent, child, i / PGSIZE)
      modifies this
      ensures Inv(Now()) && Key(parent, Root) in page && Key(child, Root) in page
      ensures ok ==> Filled(s0, Now(), child, 0, i / PGSIZE + 1) && Copied(s0, Now(), parent, child, i / PGSIZE + 1)
      ensures !ok ==> Filled(s0, Now(), child, 0, i / PGSIZE) && |freelist| <= 1
    {
      hide Pages, Links, Leaves, FreeList, Users, Filled, FreshMapped, HasPage, Copied, SameMap, Grow;
      ghost var s := Now();
      ghost var v := i / PGSIZE;
      FilledNext(s0, s, child, 0, v);
      ParentPage(s0, s, parent, child, v);
      PageOf(0, v);
      var pt := Walk(parent, i, false);
      LowTable(s, parent, v);
      var pte := tables[pt][Px(0, i)];
      FlagsOf(pte);
      ok := MapFresh(child, i, PteFlags(pte), data[Pte2Pa(pte)]);
      if ok {
        FilledMore(s0, s, Now(), child, 0, v, PteFlags(pte), s.data[Pte2Pa(pte)]);
        CopiedMore(s0, s, Now(), parent, child, v);
      } else {
        FilledGrow(s0, s, Now(), child, 0, v);
      }
    }

    /** `uvmcopy`: the child gets a page of its own for every page of the
        parent, with the same flags and the same bytes; on failure the child is
        left as it was, every page is given back, and no more pages are free
        than the copy needs. */
    method Uvmcopy(parent: nat, child: nat, sz: nat) returns (ret: int)
      requires Inv(Now()) && Key(parent, Root) in page && Key(child, Root) in page && parent != child && sz <= TRAPFRAME
      requires forall v | 0 <= v < PgUp(sz) / PGSIZE :: PteOf(Now(), parent, v) != 0 && PteOf(Now(), child, v) == 0
      modifies this
      ensures Inv(Now())
      ensures ret == 0 || ret == -1
      ensures ret == 0 ==> Filled(old(Now()), Now(), child, 0, PgUp(sz) / PGSIZE)
      ensures ret == 0 ==> Copied(old(Now()), Now(), parent, child, PgUp(sz) / PGSIZE)
      ensures ret == -1 ==> SameMap(old(Now()), Now()) && Grow(old(Now()), Now(), child) && |freelist| <= PgUp(sz) / PGSIZE
    {
      hide Pages, Links, Leaves, FreeList, Users, UnmapRange, FreedUsers, Copied, SameMap, Grow;
      ghost var s0 := Now();
      var i := 0;
      FilledStart(s0, child, 0);
      CopiedNone(s0, parent, child);
      while i < sz
        invariant i % PGSIZE == 0 && i <= PgUp(sz)
        invariant Inv(Now()) && Key(parent, Root) in page && Key(child, Root) in page
        invariant Filled(s0, Now(), child, 0, i / PGSIZE)
        invariant Copied(s0, Now(), parent, child, i / PGSIZE)
      {
        var ok := CopyPage(parent, child, i, s0);
        if !ok {
          ghost var t := Now();
          Uvmunmap(child, 0, i / PGSIZE, true);
          Undone(s0, t, Now(), child, 0, i / PGSIZE);
          return -1;
        }
        i := i + PGSIZE;
      }
      ret := 0;
    }

    /** `freewalk`: free the table `pt` and every table below it, each once.
        The leaf panic cannot be reached when nothing is mapped. */
    method FreeWalk(pt: nat, ghost k: Key)
      requires Tree(Now()) && k in page && page[k] == pt && NoLeaves(Now(), k)
      modifies this`freelist, this`tables, this`page, this`own
      ensures Pruned(old(Now()), Now(), k)
      decreases if k.node.Root? then 2 else if k.node.Mid? then 1 else 0
    {
      hide Pages, Links, Leaves, FreeList, Trimmed, Pruned, NoLeaves;
      ghost var s0 := Now();
      TrimStart(s0, k);
      var i := 0;
      while i < PTES
        invariant 0 <= i <= PTES && Trimmed(s0, Now(), k, i)
        invariant k in page && page[k] == pt && Tree(Now())
      {
        ghost var m := Now();
        TrimGives(s0, m, k, i);
        var pte := tables[pt][i];
        if IsValid(pte) && !IsLeaf(pte) {
          FreeWalk(Pte2Pa(pte), Child(k, i));
          ghost var t := Now();
          TrimChild(s0, m, t, k, i);
          SetPte(pt, i, 0);
          assert Now() == Cleared(t, k, i);
          ClearedTree2(s0, Now(), k, i + 1);
        } else if IsValid(pte) {
          assert false;
        }
        i := i + 1;
      }
      TrimDone(s0, Now(), k);
      freelist := [pt] + freelist;
      tables := tables - {pt};
      own := own[pt := Free];
      page := page - {k};
    }

    /** `uvmcreate`: an empty address space, or 0. */
    method Uvmcreate() returns (root: nat)
      requires Inv(Now())
      modifies this`freelist, this`tables, this`page, this`own
      ensures Inv(Now())
      ensures if old(freelist) == [] then root == 0 && Now() == old(Now())
              else root == old(freelist)[0] != 0 && Now() == WithRoot(old(Now()))
      ensures root != 0 ==> NewSpace(old(Now()), Now(), root)
    {
      hide Links, Leaves, FreeList, Users, NewSpace;
      if freelist == [] {
        return 0;
      }
      AddedRoot(Now());
      root := freelist[0];
      freelist := freelist[1..];
      tables := tables[root := Zeros()];
      page := page[Key(root, Root) := root];
      own := own[root := Table(Key(root, Root))];
    }

    /** `uvmfree`: unmap and free the user pages, then free the tables.  Nothing
        else may be mapped. */
    method Uvmfree(root: nat, sz: nat)
      requires Inv(Now()) && Key(root, Root) in page && sz <= TRAPFRAME
      requires forall v: nat :: PteOf(Now(), root, v) != 0 <==> v < PgUp(sz) / PGSIZE
      modifies this`freelist, this`tables, this`page, this`own
      ensures Inv(Now()) && SpaceFreed(old(Now()), Now(), root)
    {
      hide Pages, Links, Leaves, FreeList, Users, UnmapRange, FreedUsers, Pruned, NoLeaves, SpaceFreed;
      ghost var s0 := Now();
      UnmapStart(s0, root, 0, true);
      if sz > 0 {
        Uvmunmap(root, 0, PgUp(sz) / PGSIZE, true);
      }
      ghost var s1 := Now();
      NothingLeft(s0, s1, root, PgUp(sz) / PGSIZE);
      FreeWalk(root, Key(root, Root));
      SpaceGone(s0, s1, Now(), root, PgUp(sz) / PGSIZE);
    }

    /** `proc_pagetable`: an address space with the trampoline and the trapframe
        mapped and no user memory; on failure every page is given back. */
    method ProcPagetable(trampoline: nat, trapframe: nat) returns (root: nat)
      requires Inv(Now()) && trampoline % PGSIZE == 0 && trapframe % PGSIZE == 0
      modifies this`freelist, this`tables, this`page, this`own
      ensures Inv(Now())
      ensures root != 0 ==> Spawned(old(Now()), Now(), root) && ProcSpace(Now(), root, 0) && Windows(Now(), root, trampoline, trapframe)
      ensures root == 0 ==> Restored(old(Now()), Now())
    {
      hide Pages, Links, Leaves, FreeList, Users, SameMap, Grow, MapRange, NewSpace, SpaceFreed, Spawned, Restored, Windows;
      ghost var s0 := Now();
      root := Uvmcreate();
      if root == 0 {
        SameRestored(s0);
        return;
      }
      ghost var s1 := Now();
      NewSpaceGives(s0, s1, root);
      var r;
      ghost var n;
      r, n := Mappages(root, TRAMPOLINE, PGSIZE, trampoline, PTE_R + PTE_X);
      ghost var s2 := Now();
      SpawnMore(s0, s1, s2, root, USERPAGES + 1, n, trampoline, PTE_R + PTE_X);
      if r < 0 {
        Uvmfree(root, 0);
        Respawned(s0, s2, Now(), root);
        return 0;
      }
      r, n := Mappages(root, TRAPFRAME, PGSIZE, trapframe, PTE_R + PTE_W);
      ghost var s3 := Now();
      SpawnMore(s0, s2, s3, root, USERPAGES, n, trapframe, PTE_R + PTE_W);
      if r < 0 {
        Uvmunmap(root, TRAMPOLINE, 1, false);
        ghost var s4 := Now();
        SpawnUnmapped(s0, s3, s4, root);
        Uvmfree(root, 0);
        Respawned(s0, s4, Now(), root);
        return 0;
      }
      BothMapped(s1, s2, s3, root, trampoline, trapframe);
    }

    /** `proc_freepagetable`: every page of the address space goes back to the
        free list, exactly once. */
    method ProcFreepagetable(root: nat, sz: nat)
      requires Inv(Now()) && ProcSpace(Now(), root, sz) && sz <= TRAPFRAME
      modifies this`freelist, this`tables, this`page, this`own
      ensures Inv(Now()) && SpaceFreed(old(Now()), Now(), root)
    {
      hide Pages, Links, Leaves, FreeList, Users, UnmapRange, FreedUsers, SpaceFreed;
      ghost var s0 := Now();
      Uvmunmap(root, TRAMPOLINE, 1, false);
      ghost var s1 := Now();
      KernelGone(s0, s1, root, USERPAGES + 1);
      Uvmunmap(root, TRAPFRAME, 1, false);
      ghost var s2 := Now();
      KernelGone(s1, s2, root, USERPAGES);
      Uvmfree(root, sz);
      FreedAfter(s1, s2, Now(), root, USERPAGES);
      FreedAfter(s0, s1, Now(), root, USERPAGES + 1);
    }

    /** `growproc`: the process grows or shrinks, or stays as it was. */
    method Growproc(root: nat, sz: nat, n: int) returns (ret: int, sz': nat)
      requires Inv(Now()) && ProcSpace(Now(), root, sz) && sz <= TRAPFRAME && -0x8000_0000 <= n < 0x8000_0000
      requires sz + n <= TRAPFRAME || |own| < USERPAGES
      modifies this
      ensures Inv(Now()) && ProcSpace(Now(), root, sz') && sz' <= TRAPFRAME
      ensures ret == 0 || ret == -1
      ensures ret == 0 ==> sz' == if sz + n < 0 then sz else sz + n
      ensures ret == 0 && n >= 0 ==>
                && Filled(old(Now()), Now(), root, PgUp(sz) / PGSIZE, PgUp(sz') / PGSIZE)
                && HavePages(Now(), root, PgUp(sz) / PGSIZE, PgUp(sz') / PGSIZE, PTE_V + PTE_R + PTE_W + PTE_U, ZeroPage())
      ensures n < 0 ==> ret == 0 && FreedFrom(old(Now()), Now(), root, sz, sz')
      ensures ret == -1 ==> sz' == sz && SameMap(old(Now()), Now()) && Grow(old(Now()), Now(), root)
                            && |freelist| <= (PgUp(sz + n) - PgUp(sz)) / PGSIZE
    {
      hide Pages, Links, Leaves, FreeList, Users, UnmapRange, FreedUsers, Filled, HavePages, SameMap, Grow;
      ghost var s0 := Now();
      sz' := sz;
      if n > 0 {
        PgUpMono(sz, sz + n);
        SpaceMapped(s0, root, sz);
        var r := Uvmalloc(root, sz, sz + n, PTE_W);
        if r == 0 {
          SpaceSame(s0, Now(), root, sz);
          return -1, sz;
        }
        SpaceGrown(s0, Now(), root, sz, sz + n);
        sz' := r;
      } else if n < 0 {
        var newsz := if sz + n < 0 then sz + n + 0x1_0000_0000_0000_0000 else sz + n;
        PgUpMono(if newsz < sz then newsz else sz, sz);
        if newsz >= sz {
          PgUpMono(sz, newsz);
        }
        sz' := Uvmdealloc(root, sz, newsz);
        SpaceShrunk(s0, Now(), root, sz, sz');
      } else {
        FilledStart(s0, root, PgUp(sz) / PGSIZE);
        PagesNone(s0, root, PgUp(sz) / PGSIZE, PTE_V + PTE_R + PTE_W + PTE_U, ZeroPage());
      }
      ret := 0;
    }
  }

  lemma WalkStart(s: St, root: nat)
    requires Tree(s)
    ensures SameMap(s, s) && Grow(s, s, root)
  {
  }

  /** What an entry of an inner table says about the child table. */
  lemma WalkEntry(s: St, k: Key, idx: nat)
    requires Tree(s) && k in s.page && !k.node.Low? && idx < PTES
    ensures var e := s.tables[s.page[k]][idx];
            if IsValid(e) then Child(k, idx) in s.page && Pte2Pa(e) == s.page[Child(k, idx)]
            else Child(k, idx) !in s.page
  {
    assert LinkOk(s, k, idx, {});
    if Child(k, idx) in s.page {
      TableEntry(s.page[Child(k, idx)]);
    }
  }

  lemma SameMapTwice(a: St, b: St, c: St)
    requires SameMap(a, b) && SameMap(b, c)
    ensures SameMap(a, c)
  {
    forall r: nat, v: nat ensures PteOf(c, r, v) == PteOf(a, r, v) {
      assert PteOf(b, r, v) == PteOf(a, r, v);
    }
  }

  /** Without the upper table there is no bottom table. */
  lemma NoLow(s: St, root: nat, level: nat, va: nat)
    requires Tree(s) && 1 <= level <= 2 && va < MAXVA
    requires Key(root, NodeAt(level - 1, va)) !in s.page
    ensures Key(root, Low(va / 0x20_0000)) !in s.page
  {
    NextNode(root, 1, va);
    ParentOfChild(Key(root, NodeAt(1, va)), Px(1, va));
  }

  // ---------------------------------------------------------------- mappages

  lemma MapStart(s: St, r: nat, v: nat, pa: nat, perm: nat)
    requires Tree(s) && perm < 1024
    ensures MapRange(s, s, r, v, 0, pa, perm) && Grow(s, s, r)
  {
  }

  /** The n-th page from `va` on. */
  lemma PageOf(va: nat, n: nat)
    requires va % PGSIZE == 0
    ensures (va + PGSIZE * n) / PGSIZE == va / PGSIZE + n && (va + PGSIZE * n) % PGSIZE == 0
    ensures (va + PGSIZE * n) / 0x20_0000 == (va / PGSIZE + n) / PTES
    ensures Px(0, va + PGSIZE * n) == (va / PGSIZE + n) % PTES
  {
    var m := va / PGSIZE;
    assert va + PGSIZE * n == PGSIZE * (m + n);
    assert PGSIZE * (m + n) / PGSIZE == m + n;
    assert PGSIZE * (m + n) / 0x20_0000 == (m + n) / PTES;
  }

  lemma MapAfterSame(s: St, m: St, w: St, r: nat, v: nat, n: nat, pa: nat, perm: nat)
    requires MapRange(s, m, r, v, n, pa, perm) && SameMap(m, w)
    ensures MapRange(s, w, r, v, n, pa, perm)
  {
    forall r': nat, v': nat
      ensures PteOf(w, r', v') == if r' == r && v <= v' < v + n then MakePte(pa + PGSIZE * (v' - v), perm) else PteOf(s, r', v')
    {
      assert PteOf(w, r', v') == PteOf(m, r', v');
    }
  }

  lemma LowTable(s: St, r: nat, v: nat)
    requires Tree(s) && Key(r, Low(v / PTES)) in s.page
    ensures Pages(s) && HasEntry(s, r, v)
  {
  }

  /** Writing the next entry maps one more page. */
  ghost predicate MapStepped(s: St, w: St, r: nat, v: nat, n: nat, pa: nat, perm: nat) {
    && HasEntry(w, r, v + n) && perm < 1024
    && var u := WithPte(w, r, v + n, MakePte(pa + PGSIZE * n, perm));
       Tree(u) && Grow(s, u, r) && MapRange(s, u, r, v, n + 1, pa, perm)
  }

  lemma MapStep(s: St, m: St, w: St, r: nat, v: nat, n: nat, pa: nat, perm: nat)
    requires Tree(s) && Tree(w) && Grow(s, w, r) && MapRange(s, m, r, v, n, pa, perm) && SameMap(m, w)
    requires HasEntry(w, r, v + n) && pa % PGSIZE == 0 && perm < 1024 && IsLeaf(perm)
    ensures MapStepped(s, w, r, v, n, pa, perm)
  {
    hide Links, Leaves, FreeList, MapRange, SameMap, MapSet;
    var e := MakePte(pa + PGSIZE * n, perm);
    PteRoundTrip(pa + PGSIZE * n, perm);
    ChangedPte(w, r, v + n, e);
    MapOneMore(s, m, w, WithPte(w, r, v + n, e), r, v, n, pa, perm);
  }

  // ---------------------------------------------------------------- uvmunmap

  /** The only owners that changed: the given user pages, now free. */
  predicate FreedUsers(s: St, t: St, r: nat, v: nat, n: nat, doFree: bool) {
    && t.page == s.page && t.data == s.data && t.own.Keys == s.own.Keys
    && forall p | p in s.own ::
         t.own[p] == if doFree && s.own[p].User? && s.own[p].root == r && v <= s.own[p].vpn < v + n then Free else s.own[p]
  }

  lemma UnmapStart(s: St, r: nat, v: nat, doFree: bool)
    requires Inv(s)
    ensures UnmapRange(s, s, r, v, 0) && FreedUsers(s, s, r, v, 0, doFree)
  {
  }

  /** One page unmapped, and freed if asked. */
  function Unmapped(s: St, r: nat, v: nat, doFree: bool): St
    requires HasEntry(s, r, v)
  {
    var pa := Pte2Pa(s.tables[s.page[Key(r, Low(v / PTES))]][v % PTES]);
    WithPte(if doFree then Freed(s, pa) else s, r, v, 0)
  }

  ghost predicate UnmapStepped(s0: St, s: St, r: nat, v: nat, n: nat, doFree: bool) {
    && HasEntry(s, r, v + n) && Pages(s)
    && (doFree ==> Pte2Pa(PteOf(s, r, v + n)) in s.own && s.own[Pte2Pa(PteOf(s, r, v + n))] == User(r, v + n))
    && var t := Unmapped(s, r, v + n, doFree);
       Inv(t) && UnmapRange(s0, t, r, v, n + 1) && FreedUsers(s0, t, r, v, n + 1, doFree)
  }

  /** The next page: what freeing and clearing it leads to. */
  lemma UnmapStep(s0: St, s: St, r: nat, v: nat, n: nat, doFree: bool)
    requires Inv(s0) && Inv(s) && UnmapRange(s0, s, r, v, n) && FreedUsers(s0, s, r, v, n, doFree)
    requires PteOf(s0, r, v + n) != 0
    requires if doFree then v + n < USERPAGES else USERPAGES <= v
    ensures UnmapStepped(s0, s, r, v, n, doFree)
  {
    hide Links, Leaves, FreeList, Users, MapSet;
    assert PteOf(s, r, v + n) == PteOf(s0, r, v + n);
    hide UnmapRange;
    if doFree {
      UnmapUser(s0, s, r, v, n);
    } else {
      KernelUnmapped(s, r, v + n);
      UnmapOneMore(s0, s, WithPte(s, r, v + n, 0), r, v, n);
    }
  }

  lemma UnmapUser(s0: St, s: St, r: nat, v: nat, n: nat)
    requires Inv(s0) && Inv(s) && UnmapRange(s0, s, r, v, n) && FreedUsers(s0, s, r, v, n, true)
    requires PteOf(s, r, v + n) != 0 && v + n < USERPAGES
    ensures UnmapStepped(s0, s, r, v, n, true)
  {
    hide Links, Leaves, FreeList, Users, MapSet, UnmapRange, FreedUsers;
    var pa := Pte2Pa(PteOf(s, r, v + n));
    UserUnmapped(s, r, v + n);
    UnmapOneMore(s0, s, WithPte(Freed(s, pa), r, v + n, 0), r, v, n);
    UserPage(s, r, v + n);
    FreedOneMore(s0, s, WithPte(Freed(s, pa), r, v + n, 0), r, v, n, pa);
  }

  lemma FreedOneMore(s0: St, s: St, t: St, r: nat, v: nat, n: nat, pa: nat)
    requires FreedUsers(s0, s, r, v, n, true) && pa in s.own && s.own[pa] == User(r, v + n)
    requires forall p | p in s.own && s.own[p] == User(r, v + n) :: p == pa
    requires t.page == s.page && t.data == s.data && t.own == s.own[pa := Free]
    ensures FreedUsers(s0, t, r, v, n + 1, true)
  {
  }

  /** Only one page has a given user mapping. */
  lemma UserPage(s: St, r: nat, v: nat)
    requires Inv(s) && v < USERPAGES && PteOf(s, r, v) != 0
    ensures forall p | p in s.own && s.own[p] == User(r, v) :: p == Pte2Pa(PteOf(s, r, v))
  {
  }

  // ---------------------------------------------------------------- a fresh user page

  /** A page from the free list holds `bytes` and is mapped at `v`; otherwise
      memory only moved from the free list to tables of `r`. */
  ghost predicate FreshMapped(s: St, t: St, r: nat, v: nat, perm: nat, bytes: seq<int>) {
    && Pages(s) && Pages(t) && perm < 1024
    && exists pa ::
         && pa in s.own && s.own[pa] == Free && pa % PGSIZE == 0 && FreshAt(s, t, r, v, perm, bytes, pa)
  }

  ghost predicate FreshAt(s: St, t: St, r: nat, v: nat, perm: nat, bytes: seq<int>, pa: nat)
    requires perm < 1024
  {
    && MapSet(s, t, r, v, MakePte(pa, perm))
    && t.own.Keys == s.own.Keys && pa in t.own && t.own[pa] == User(r, v) && pa in t.data && t.data[pa] == bytes
    && (forall p | p in s.own && p != pa ::
          t.own[p] == s.own[p] || (s.own[p] == Free && t.own[p].Table? && t.own[p].key.root == r))
    && (forall k | k in s.page :: k in t.page && t.page[k] == s.page[k])
    && SameData(s, t)
  }

  /** The state after `kalloc` and filling the page. */
  function Filling(s: St, bytes: seq<int>): St
    requires s.freelist != []
  {
    Taken(s).(data := s.data[s.freelist[0] := bytes])
  }

  lemma FreshTaken(s: St, bytes: seq<int>, r: nat, v: nat)
    requires Inv(s) && s.freelist != []
    ensures var t := Filling(s, bytes);
            && Inv(t) && SameMap(s, t) && SameData(s, t)
            && s.freelist[0] in s.own && s.own[s.freelist[0]] == Free
  {
    var p := s.freelist[0];
    assert p in s.freelist;
    TakenPage(s);
    var t := Filling(s, bytes);
    TreeIgnoresData(Taken(s), t);
    UsersKept(s, t);
  }

  lemma TreeIgnoresData(s: St, t: St)
    requires Tree(s) && t == s.(data := t.data)
    ensures Tree(t) && SameMap(s, t)
  {
    assert Pages(t);
    forall k, i | k in t.page && !k.node.Low? && 0 <= i < PTES ensures LinkOk(t, k, i, {}) {
      assert LinkOk(s, k, i, {});
    }
  }

  lemma FreshOwner(s: St, t: St, r: nat, p: nat)
    requires Grow(s, t, r) && p in s.own && s.own[p] == Other
    ensures p in t.own && t.own[p] == Other
  {
  }

  lemma FreshFail(s: St, m: St, w: St, r: nat, v: nat, p: nat, perm: nat)
    requires Inv(s) && s.freelist != [] && p == s.freelist[0] && p in s.own && s.own[p] == Free
    requires p in m.data && m == Filling(s, m.data[p]) && Inv(m) && SameMap(s, m)
    requires Tree(w) && Grow(m, w, r) && MapRange(m, w, r, v, 0, p, perm)
    ensures Inv(Freed(w, p)) && SameMap(s, Freed(w, p)) && Grow(s, Freed(w, p), r)
  {
    hide Links, Leaves, FreeList, Users;
    var f := Freed(w, p);
    FreedPage(w, p);
    forall r': nat, v': nat ensures PteOf(f, r', v') == PteOf(s, r', v') {
      assert PteOf(f, r', v') == PteOf(w, r', v') == PteOf(m, r', v');
    }
    UsersHaveData(s);
    UsersKept(s, f);
  }

  lemma UsersHaveData(s: St)
    requires Inv(s)
    ensures forall p | p in s.own && s.own[p].User? :: PageData(s, p)
  {
  }

  lemma FreshMap(s: St, m: St, w: St, r: nat, v: nat, p: nat, perm: nat)
    requires SameMap(s, m) && MapRange(m, w, r, v, 1, p, perm)
    ensures MapSet(s, w, r, v, MakePte(p, perm))
  {
    forall r': nat, v': nat ensures PteOf(w, r', v') == if r' == r && v' == v then MakePte(p, perm) else PteOf(s, r', v') {
      assert PteOf(m, r', v') == PteOf(s, r', v');
    }
  }

  lemma FreshDone(s: St, m: St, w: St, r: nat, v: nat, p: nat, perm: nat, bytes: seq<int>)
    requires Inv(s) && s.freelist != [] && p == s.freelist[0] && p in s.own && s.own[p] == Free
    requires m == Filling(s, bytes) && Inv(m) && SameMap(s, m) && SameData(s, m)
    requires Tree(w) && Grow(m, w, r) && MapRange(m, w, r, v, 1, p, perm) && perm < 1024
    requires v < USERPAGES && PteOf(s, r, v) == 0 && |bytes| == PGSIZE
    ensures Inv(WithOwner(w, p, User(r, v))) && FreshMapped(s, WithOwner(w, p, User(r, v)), r, v, perm, bytes)
  {
    hide Links, Leaves, FreeList, Users, MapSet, SameMap, MapRange;
    var u := WithOwner(w, p, User(r, v));
    FreshMap(s, m, w, r, v, p, perm);
    UsersHaveData(s);
    assert p % PGSIZE == 0 by { assert p in s.own; }
    UserMapped(s, w, r, v, p, perm);
    assert FreshAt(s, u, r, v, perm, bytes, p) by {
      FreshAtLast(s, w, r, v, p, perm, bytes);
    }
  }

  lemma FreshAtLast(s: St, w: St, r: nat, v: nat, p: nat, perm: nat, bytes: seq<int>)
    requires s.freelist != [] && p == s.freelist[0] && p in s.own && s.own[p] == Free && perm < 1024
    requires Grow(Filling(s, bytes), w, r)
    requires MapSet(s, WithOwner(w, p, User(r, v)), r, v, MakePte(p, perm))
    ensures FreshAt(s, WithOwner(w, p, User(r, v)), r, v, perm, bytes, p)
  {
    hide Pages, MapSet;
  }

  // ---------------------------------------------------------------- growing an address space

  function PgUp(sz: nat): nat {
    (sz + PGSIZE - 1) / PGSIZE * PGSIZE
  }

  lemma NoPages(s: St)
    requires s.freelist == [] && s.own == map[]
    ensures FreeList(s)
  {
  }

  lemma NewPage(s: St, p: nat)
    requires FreeList(s) && p !in s.own
    ensures FreeList(s.(freelist := [p] + s.freelist, own := s.own[p := Free]))
  {
    var t := s.(freelist := [p] + s.freelist, own := s.own[p := Free]);
    assert p !in s.freelist;
    forall i, j | 0 <= i < j < |t.freelist| ensures t.freelist[i] != t.freelist[j] {
      assert t.freelist[j] == s.freelist[j - 1];
      if i > 0 {
        assert t.freelist[i] == s.freelist[i - 1];
      }
    }
  }

  lemma NoTables(s: St)
    requires s.page == map[] && FreeList(s) && forall p | p in s.own :: s.own[p] == Free && 0 < p && p % PGSIZE == 0
    ensures Inv(s)
  {
  }

  lemma AlignedUp(sz: nat)
    requires sz % PGSIZE == 0
    ensures PgUp(sz) == sz
  {
  }

  function ZeroPage(): seq<int> {
    seq(PGSIZE, _ => 0)
  }

  /** Page `v` of `r` is mapped with these flags and holds these bytes. */
  predicate HasPage(s: St, r: nat, v: nat, flags: nat, bytes: seq<int>) {
    && Pages(s) && PteOf(s, r, v) != 0 && PteFlags(PteOf(s, r, v)) == flags
    && Pte2Pa(PteOf(s, r, v)) in s.data && s.data[Pte2Pa(PteOf(s, r, v))] == bytes
  }

  /** Pages `lo` .. `hi - 1` of `r` were mapped to pages from the free list;
      nothing else changed except that tables of `r` may have been added. */
  ghost predicate Filled(s: St, t: St, r: nat, lo: nat, hi: nat) {
    && Pages(s) && Pages(t) && lo <= hi
    && (forall r': nat, v': nat | r' != r || v' < lo || hi <= v' :: PteOf(t, r', v') == PteOf(s, r', v'))
    && (forall v | lo <= v < hi :: PteOf(t, r, v) != 0)
    && t.own.Keys == s.own.Keys
    && (forall p | p in s.own ::
          t.own[p] == s.own[p]
          || (s.own[p] == Free && t.own[p].Table? && t.own[p].key.root == r)
          || (s.own[p] == Free && t.own[p].User? && t.own[p].root == r && lo <= t.own[p].vpn < hi))
    && (forall k | k in s.page :: k in t.page && t.page[k] == s.page[k])
    && SameData(s, t)
  }

  lemma FilledStart(s: St, r: nat, lo: nat)
    requires Inv(s)
    ensures Filled(s, s, r, lo, lo)
  {
  }

  /** The first `n` pages of address space `r` are mapped. */
  ghost predicate MappedBelow(s: St, r: nat, n: nat)
    requires Pages(s)
  {
    forall v: nat | v < n :: PteOf(s, r, v) != 0
  }

  /** Mapped user pages are pages of memory, each another. */
  lemma {:induction false} DistinctPages(s: St, r: nat, n: nat, pages: set<nat>)
    requires Inv(s) && n <= USERPAGES && MappedBelow(s, r, n)
    requires forall v: nat | v < n :: Pte2Pa(PteOf(s, r, v)) in pages
    ensures n <= |pages|
    decreases n
  {
    hide Links, Leaves, FreeList, Pte2Pa;
    if n > 0 {
      var last := Pte2Pa(PteOf(s, r, n - 1));
      forall v: nat | v < n - 1 ensures Pte2Pa(PteOf(s, r, v)) in pages - {last} {
        assert s.own[Pte2Pa(PteOf(s, r, v))] == User(r, v) && s.own[last] == User(r, n - 1);
      }
      DistinctPages(s, r, n - 1, pages - {last});
    }
  }

  /** With less memory than user address space, memory runs out below the trapframe. */
  lemma RunsOut(s: St, t: St, r: nat, lo: nat, hi: nat)
    requires Inv(s) && Inv(t) && Filled(s, t, r, lo, hi) && MappedBelow(s, r, lo) && |s.own| < USERPAGES
    ensures hi < USERPAGES
  {
    hide Links, Leaves, FreeList;
    forall v: nat | v < hi ensures PteOf(t, r, v) != 0 {
      assert v < lo ==> PteOf(t, r, v) == PteOf(s, r, v);
    }
    var n := if hi < USERPAGES then hi else USERPAGES;
    assert t.own.Keys == s.own.Keys;
    DistinctPages(t, r, n, t.own.Keys);
  }

  lemma FilledNext(s: St, m: St, r: nat, lo: nat, hi: nat)
    requires Inv(s) && Inv(m) && Filled(s, m, r, lo, hi) && PteOf(s, r, hi) == 0
    ensures PteOf(m, r, hi) == 0
    ensures forall k | k in s.page :: k in m.page
  {
  }

  lemma FilledGrow(s: St, m: St, t: St, r: nat, lo: nat, hi: nat)
    requires Filled(s, m, r, lo, hi) && SameMap(m, t) && Grow(m, t, r)
    ensures Filled(s, t, r, lo, hi)
    ensures forall v | lo <= v < hi :: PteOf(t, r, v) != 0
    ensures forall k | k in m.page :: k in t.page
  {
  }

  lemma FilledMore(s: St, m: St, t: St, r: nat, lo: nat, hi: nat, perm: nat, bytes: seq<int>)
    requires Filled(s, m, r, lo, hi) && FreshMapped(m, t, r, hi, perm, bytes)
    ensures Filled(s, t, r, lo, hi + 1)
    ensures forall k | k in m.page :: k in t.page
  {
    hide Pages;
    var pa: nat :| pa in m.own && m.own[pa] == Free && pa % PGSIZE == 0 && FreshAt(m, t, r, hi, perm, bytes, pa);
    PteRoundTrip(pa, perm);
  }

  /** Every page from `lo` to `hi` has the same flags and bytes. */
  predicate HavePages(s: St, r: nat, lo: nat, hi: nat, flags: nat, bytes: seq<int>) {
    forall v | lo <= v < hi :: HasPage(s, r, v, flags, bytes)
  }

  lemma PagesNone(s: St, r: nat, lo: nat, flags: nat, bytes: seq<int>)
    ensures HavePages(s, r, lo, lo, flags, bytes)
  {
  }

  /** The new page has its flags and bytes, and every user page keeps its own. */
  lemma PageAdded(m: St, t: St, r: nat, v: nat, perm: nat, bytes: seq<int>)
    requires Inv(m) && Pages(t) && FreshMapped(m, t, r, v, perm, bytes)
    ensures HasPage(t, r, v, if perm % 2 == 1 then perm else perm + 1, bytes)
    ensures forall r': nat, w: nat, flags: nat, b: seq<int> |
              HasPage(m, r', w, flags, b) && (r' != r || w != v) && w < USERPAGES :: HasPage(t, r', w, flags, b)
  {
    hide Tree;
    var pa: nat :| pa in m.own && m.own[pa] == Free && pa % PGSIZE == 0 && FreshAt(m, t, r, v, perm, bytes, pa);
    PteRoundTrip(pa, perm);
    forall r': nat, w: nat, flags: nat, b: seq<int> | HasPage(m, r', w, flags, b) && (r' != r || w != v) && w < USERPAGES
      ensures HasPage(t, r', w, flags, b)
    {
      assert PteOf(t, r', w) == PteOf(m, r', w);
      assert m.own[Pte2Pa(PteOf(m, r', w))] == User(r', w);
    }
  }

  lemma PagesMore(m: St, t: St, r: nat, lo: nat, hi: nat, perm: nat, bytes: seq<int>)
    requires Inv(m) && Pages(t) && FreshMapped(m, t, r, hi, perm, bytes) && perm % 2 == 0 && hi < USERPAGES
    requires HavePages(m, r, lo, hi, perm + 1, bytes)
    ensures HavePages(t, r, lo, hi + 1, perm + 1, bytes)
  {
    PageAdded(m, t, r, hi, perm, bytes);
    var flags := perm + 1;
    forall v | lo <= v < hi + 1 ensures HasPage(t, r, v, flags, bytes) {
      if v < hi {
        assert HasPage(m, r, v, flags, bytes);
      }
    }
  }

  /** Taking the new pages away again leaves every mapping as it was, and every
      page where it was except those that became tables. */
  lemma Undone(s: St, m: St, t: St, r: nat, lo: nat, hi: nat)
    requires Filled(s, m, r, lo, hi) && Inv(s) && Inv(t)
    requires forall v | lo <= v < hi :: PteOf(s, r, v) == 0
    requires UnmapRange(m, t, r, lo, hi - lo) && FreedUsers(m, t, r, lo, hi - lo, true)
    ensures SameMap(s, t) && Grow(s, t, r)
  {
    hide Links, Leaves, FreeList;
    forall r': nat, v': nat ensures PteOf(t, r', v') == PteOf(s, r', v') {
    }
    forall p | p in s.own
      ensures t.own[p] == s.own[p] || (s.own[p] == Free && t.own[p].Table? && t.own[p].key.root == r)
    {
      if s.own[p].User? {
        assert PteOf(s, s.own[p].root, s.own[p].vpn) != 0;
      }
    }
  }

  // ---------------------------------------------------------------- uvmcopy

  /** Each of the first `n` pages of the child is a copy of the parent's. */
  ghost predicate Copied(s: St, t: St, parent: nat, child: nat, n: nat) {
    forall v | 0 <= v < n :: CopiedPage(s, t, parent, child, v)
  }

  ghost predicate CopiedPage(s: St, t: St, parent: nat, child: nat, v: nat) {
    && Pages(s) && Pte2Pa(PteOf(s, parent, v)) in s.data
    && HasPage(t, child, v, PteFlags(PteOf(s, parent, v)), s.data[Pte2Pa(PteOf(s, parent, v))])
  }

  lemma CopiedNone(s: St, parent: nat, child: nat)
    ensures Copied(s, s, parent, child, 0)
  {
  }

  /** The flags of a valid leaf are those of a valid leaf. */
  lemma FlagsOf(pte: nat)
    ensures PteFlags(pte) < 1024 && IsLeaf(PteFlags(pte)) == IsLeaf(pte) && IsValid(PteFlags(pte)) == IsValid(pte)
  {
    var a, f := pte / 1024, pte % 1024;
    assert pte == a * 1024 + f;
    assert pte / 2 == a * 512 + f / 2;
    assert pte % 2 == f % 2;
  }

  /** The parent's page is still there, mapped and readable. */
  lemma ParentPage(s0: St, s: St, parent: nat, child: nat, v: nat)
    requires Inv(s0) && Inv(s) && parent != child && Filled(s0, s, child, 0, v) && v < USERPAGES && PteOf(s0, parent, v) != 0
    ensures PteOf(s, parent, v) == PteOf(s0, parent, v) && HasEntry(s, parent, v)
    ensures IsValid(PteOf(s, parent, v)) && IsLeaf(PteOf(s, parent, v))
    ensures var pa := Pte2Pa(PteOf(s, parent, v)); pa in s0.data && PageData(s, pa) && s.data[pa] == s0.data[pa]
  {
    hide Tree, Users;
    LeafEntry(s, parent, v);
    UserData(s0, s, parent, v);
  }

  lemma LeafEntry(s: St, r: nat, v: nat)
    requires Inv(s) && PteOf(s, r, v) != 0
    ensures HasEntry(s, r, v) && IsValid(PteOf(s, r, v)) && IsLeaf(PteOf(s, r, v))
  {
    hide Links, FreeList, Users;
  }

  lemma UserData(s: St, t: St, r: nat, v: nat)
    requires Inv(s) && v < USERPAGES && PteOf(s, r, v) != 0 && SameData(s, t)
    ensures var pa := Pte2Pa(PteOf(s, r, v)); pa in s.data && PageData(t, pa) && t.data[pa] == s.data[pa]
  {
    hide Links, Leaves, FreeList;
    assert s.own[Pte2Pa(PteOf(s, r, v))] == User(r, v);
  }

  lemma CopiedMore(s0: St, s: St, t: St, parent: nat, child: nat, v: nat)
    requires Inv(s0) && Inv(s) && Inv(t) && parent != child && v < USERPAGES
    requires Filled(s0, s, child, 0, v) && PteOf(s0, parent, v) != 0 && Copied(s0, s, parent, child, v)
    requires var pte := PteOf(s0, parent, v);
             Pte2Pa(pte) in s.data && FreshMapped(s, t, child, v, PteFlags(pte), s.data[Pte2Pa(pte)])
    ensures Copied(s0, t, parent, child, v + 1)
  {
    hide Links, FreeList, Users;
    ParentPage(s0, s, parent, child, v);
    var pte := PteOf(s0, parent, v);
    FlagsOf(pte);
    PageAdded(s, t, child, v, PteFlags(pte), s.data[Pte2Pa(pte)]);
    forall w | 0 <= w < v + 1 ensures CopiedPage(s0, t, parent, child, w) {
      if w < v {
        assert CopiedPage(s0, s, parent, child, w);
      }
    }
  }

  // ---------------------------------------------------------------- freewalk

  /** What the next entry of a table being freed can be. */
  lemma TrimGives(s: St, m: St, k: Key, i: nat)
    requires Trimmed(s, m, k, i) && NoLeaves(s, k) && i < PTES
    ensures Pages(m) && k in m.page && m.page[k] in m.tables && |m.tables[m.page[k]]| == PTES
    ensures var e := m.tables[m.page[k]][i];
            if IsValid(e)
            then !IsLeaf(e) && !k.node.Low? && Child(k, i) in m.page && m.page[Child(k, i)] == Pte2Pa(e) && NoLeaves(m, Child(k, i))
            else Trimmed(s, m, k, i + 1)
  {
    hide Links, Leaves, FreeList;
    if k.node.Low? {
      TrimLow(s, m, k, i);
    } else {
      TrimTable(s, m, k, i);
    }
  }

  lemma TrimLow(s: St, m: St, k: Key, i: nat)
    requires Trimmed(s, m, k, i) && NoLeaves(s, k) && i < PTES && k.node.Low?
    ensures m.tables[m.page[k]][i] == 0 && Trimmed(s, m, k, i + 1)
  {
    hide Links, Leaves, FreeList;
    assert s.tables[s.page[k]][i] == 0;
    assert GoneSet(s, k, i + 1) == GoneSet(s, k, i);
  }

  lemma TrimTable(s: St, m: St, k: Key, i: nat)
    requires Trimmed(s, m, k, i) && NoLeaves(s, k) && i < PTES && !k.node.Low?
    ensures var e := m.tables[m.page[k]][i];
            if IsValid(e) then !IsLeaf(e) && Child(k, i) in m.page && m.page[Child(k, i)] == Pte2Pa(e) && NoLeaves(m, Child(k, i))
            else Trimmed(s, m, k, i + 1)
  {
    hide Leaves, FreeList, Trimmed, NoLeaves;
    TrimmedTree(s, m, k, i);
    WalkEntry(m, k, i);
    assert LinkOk(m, k, i, {});
    if Child(k, i) in m.page {
      TableEntry(m.page[Child(k, i)]);
      NoLeavesChild(s, m, k, i);
    } else {
      TrimEmpty(s, m, k, i);
    }
  }

  lemma TrimmedTree(s: St, m: St, k: Key, i: nat)
    requires Trimmed(s, m, k, i)
    ensures Tree(m) && k in m.page
  {
  }

  lemma ClearedTree2(s: St, t: St, k: Key, i: nat)
    requires Trimmed(s, t, k, i)
    ensures Tree(t) && k in t.page && k in s.page && t.page[k] == s.page[k]
  {
  }

  // ---------------------------------------------------------------- whole address spaces

  /** The first free page becomes the root of an empty address space. */
  function WithRoot(s: St): St
    requires s.freelist != []
  {
    var p := s.freelist[0];
    s.(freelist := s.freelist[1..], tables := s.tables[p := Zeros()],
       page := s.page[Key(p, Root) := p], own := s.own[p := Table(Key(p, Root))])
  }

  /** `root` is a new address space without mappings, made from one free page. */
  ghost predicate NewSpace(s: St, t: St, root: nat) {
    && SameMap(s, t) && Key(root, Root) in t.page && (forall v: nat :: PteOf(t, root, v) == 0)
    && root in s.own && s.own[root] == Free && t.own == s.own[root := Table(Key(root, Root))]
    && (forall k | k in s.page :: k in t.page && k.root != root)
    && t.data == s.data
  }

  lemma AddedRoot(s: St)
    requires Inv(s) && s.freelist != []
    ensures Inv(WithRoot(s)) && NewSpace(s, WithRoot(s), s.freelist[0])
  {
    var p := s.freelist[0];
    assert p in s.freelist;
    var t := WithRoot(s);
    NoSuchRoot(s, p);
    RootPages(s);
    RootLinks(s);
    RootRest(s);
    UsersKept(s, t);
  }

  lemma NoSuchRoot(s: St, p: nat)
    requires Tree(s) && p in s.own && s.own[p] == Free
    ensures forall k | k in s.page :: k.root != p
  {
    hide Leaves, FreeList;
    forall k | k in s.page ensures k.root != p {
      RootPresent(s, k);
    }
  }

  lemma RootPresent(s: St, k: Key)
    requires Pages(s) && Links(s, {}) && k in s.page
    ensures Key(k.root, Root) in s.page
  {
    if k.node.Low? {
      assert Parent(k) in s.page;
      assert Parent(Parent(k)) in s.page;
    } else if k.node.Mid? {
      assert Parent(k) in s.page;
    }
  }

  lemma RootPages(s: St)
    requires Tree(s) && s.freelist != [] && s.freelist[0] in s.own && s.own[s.freelist[0]] == Free
    ensures Pages(WithRoot(s))
  {
    hide Links, Leaves;
    var t := WithRoot(s);
    forall k | k in t.page
      ensures t.page[k] in t.own && t.own[t.page[k]] == Table(k)
      ensures t.page[k] in t.tables && |t.tables[t.page[k]]| == PTES
    {
      if k in s.page {
        assert s.own[s.page[k]] == Table(k);
      }
    }
  }

  lemma RootLinks(s: St)
    requires Tree(s) && s.freelist != [] && s.freelist[0] in s.own && s.own[s.freelist[0]] == Free
    requires Pages(WithRoot(s)) && forall k | k in s.page :: k.root != s.freelist[0]
    ensures Links(WithRoot(s), {})
  {
    var t := WithRoot(s);
    forall k, idx | k in t.page && !k.node.Low? && 0 <= idx < PTES ensures LinkOk(t, k, idx, {}) {
      if k in s.page {
        assert LinkOk(s, k, idx, {});
        assert s.own[s.page[k]] == Table(k);
      }
    }
  }

  lemma RootRest(s: St)
    requires Tree(s) && s.freelist != [] && s.freelist[0] in s.own && s.own[s.freelist[0]] == Free
    requires Pages(WithRoot(s)) && forall k | k in s.page :: k.root != s.freelist[0]
    ensures Leaves(WithRoot(s)) && FreeList(WithRoot(s)) && SameMap(s, WithRoot(s))
  {
    hide Links;
    var t := WithRoot(s);
    forall k | k in s.page ensures t.tables[t.page[k]] == s.tables[s.page[k]] {
      assert s.own[s.page[k]] == Table(k);
    }
    forall q | q in t.own && t.own[q] == Free ensures q in t.freelist {
      assert q in s.freelist;
      var i :| 0 <= i < |s.freelist| && s.freelist[i] == q;
      assert t.freelist[i - 1] == q;
    }
  }

  /** The address space is gone: its mappings are gone, its tables and user
      pages are free, and nothing else changed. */
  ghost predicate SpaceFreed(s: St, t: St, r: nat) {
    && Pages(s) && Pages(t)
    && (forall r': nat, v: nat :: PteOf(t, r', v) == if r' == r then 0 else PteOf(s, r', v))
    && t.own.Keys == s.own.Keys
    && (forall p | p in s.own :: t.own[p] == if OfSpace(s.own[p], r) then Free else s.own[p])
    && (forall k :: k in t.page <==> k in s.page && k.root != r)
    && t.data == s.data
  }

  predicate OfSpace(o: Owner, r: nat) {
    (o.Table? && o.key.root == r) || (o.User? && o.root == r)
  }

  lemma NothingLeft(s: St, t: St, r: nat, n: nat)
    requires Inv(s) && Inv(t) && UnmapRange(s, t, r, 0, n) && FreedUsers(s, t, r, 0, n, true)
    requires forall v: nat :: PteOf(s, r, v) != 0 <==> v < n
    ensures Key(r, Root) in s.page ==> Key(r, Root) in t.page && t.page[Key(r, Root)] == r
    ensures NoLeaves(t, Key(r, Root))
  {
    hide Links, Leaves, FreeList, Users;
    forall v: nat ensures PteOf(t, r, v) == 0 {
      assert PteOf(s, r, v) != 0 <==> v < n;
    }
    EmptyMap(t, r);
  }

  lemma SpaceGone(s: St, m: St, t: St, r: nat, n: nat)
    requires Inv(s) && Inv(m) && UnmapRange(s, m, r, 0, n) && FreedUsers(s, m, r, 0, n, true)
    requires forall v: nat :: PteOf(s, r, v) != 0 <==> v < n
    requires Pruned(m, t, Key(r, Root))
    ensures Inv(t) && SpaceFreed(s, t, r)
  {
    hide Links, Leaves, FreeList;
    RootPruned(m, t, r);
    RootPrunedMap(m, t, r);
    UsersGone(m, t, r);
    forall p | p in s.own ensures p in t.own && t.own[p] == if OfSpace(s.own[p], r) then Free else s.own[p] {
      PageGone(s, m, t, r, n, p);
    }
  }

  lemma PageGone(s: St, m: St, t: St, r: nat, n: nat, p: nat)
    requires Inv(s) && Inv(m) && FreedUsers(s, m, r, 0, n, true) && Pruned(m, t, Key(r, Root)) && p in s.own
    requires forall v: nat :: PteOf(s, r, v) != 0 <==> v < n
    ensures p in t.own && t.own[p] == if OfSpace(s.own[p], r) then Free else s.own[p]
  {
    hide Links, Leaves, FreeList;
    if s.own[p].User? && s.own[p].root == r {
      assert PteOf(s, r, s.own[p].vpn) != 0;
    }
    if s.own[p].Table? {
      assert m.own[p] == s.own[p];
      assert s.own[p].key in m.page;
    }
  }

  lemma UsersGone(m: St, t: St, r: nat)
    requires Inv(m) && Pages(t) && Pruned(m, t, Key(r, Root))
    requires forall v: nat :: PteOf(m, r, v) == 0
    requires forall r': nat, v: nat :: PteOf(t, r', v) == if r' == r then 0 else PteOf(m, r', v)
    ensures Users(t)
  {
    hide Links, Leaves, FreeList;
    UsersHaveData(m);
    forall r': nat, v: nat | v < USERPAGES ensures PteOf(t, r', v) == PteOf(m, r', v) {
    }
    UsersKept(m, t);
  }

  // ---------------------------------------------------------------- proc_pagetable

  /** A process's address space: `sz` bytes of user memory, the trapframe and
      the trampoline, and nothing else. */
  ghost predicate ProcSpace(s: St, r: nat, sz: nat) {
    && Pages(s) && Key(r, Root) in s.page
    && forall v: nat :: PteOf(s, r, v) != 0 <==> v < PgUp(sz) / PGSIZE || v == USERPAGES || v == USERPAGES + 1
  }

  /** The trampoline and the trapframe are mapped, for the kernel only. */
  predicate Windows(s: St, r: nat, trampoline: nat, trapframe: nat) {
    && Pages(s)
    && PteOf(s, r, USERPAGES + 1) == MakePte(trampoline, PTE_R + PTE_X)
    && PteOf(s, r, USERPAGES) == MakePte(trapframe, PTE_R + PTE_W)
  }

  lemma BothMapped(s: St, m: St, t: St, r: nat, trampoline: nat, trapframe: nat)
    requires MapRange(s, m, r, USERPAGES + 1, 1, trampoline, PTE_R + PTE_X)
    requires MapRange(m, t, r, USERPAGES, 1, trapframe, PTE_R + PTE_W)
    ensures Windows(t, r, trampoline, trapframe)
  {
    hide Pages;
    assert PteOf(m, r, USERPAGES + 1) == MakePte(trampoline, PTE_R + PTE_X);
    assert PteOf(t, r, USERPAGES + 1) == PteOf(m, r, USERPAGES + 1);
  }

  /** Every page and every mapping is where it was. */
  ghost predicate Restored(s: St, t: St) {
    SameMap(s, t) && t.own == s.own && t.page.Keys == s.page.Keys && SameData(s, t)
  }

  /** From `s` to `t` an address space `r` appeared, made of free pages. */
  ghost predicate Spawned(s: St, t: St, r: nat) {
    && Pages(s) && Pages(t) && Key(r, Root) in t.page
    && (forall r': nat, v: nat | r' != r :: PteOf(t, r', v) == PteOf(s, r', v))
    && (forall v: nat :: PteOf(s, r, v) == 0)
    && t.own.Keys == s.own.Keys
    && (forall p | p in s.own ::
          !OfSpace(s.own[p], r) && (t.own[p] == s.own[p] || (s.own[p] == Free && t.own[p].Table? && t.own[p].key.root == r)))
    && (forall k | k in s.page :: k.root != r && k in t.page)
    && (forall k | k in t.page && k.root != r :: k in s.page)
    && SameData(s, t)
  }

  lemma SameRestored(s: St)
    requires Inv(s)
    ensures Restored(s, s)
  {
  }

  lemma NewSpaceGives(s: St, t: St, r: nat)
    requires Inv(s) && Inv(t) && NewSpace(s, t, r)
    ensures Spawned(s, t, r) && Key(r, Root) in t.page && forall v: nat :: PteOf(t, r, v) == 0
  {
    hide Links, Leaves, FreeList;
    forall p | p in s.own ensures !OfSpace(s.own[p], r) {
      if s.own[p].Table? {
        assert s.own[p].key in s.page;
      }
      if s.own[p].User? {
        assert PteOf(s, s.own[p].root, s.own[p].vpn) != 0;
      }
    }
    forall v: nat ensures PteOf(s, r, v) == 0 {
    }
  }

  /** A mapping above user memory was added to the new space. */
  lemma SpawnMore(s: St, m: St, t: St, r: nat, v: nat, n: nat, pa: nat, perm: nat)
    requires Spawned(s, m, r) && Inv(m) && Tree(t) && Grow(m, t, r) && MapRange(m, t, r, v, n, pa, perm)
    requires USERPAGES <= v && pa % PGSIZE == 0
    ensures Inv(t) && Spawned(s, t, r) && Key(r, Root) in t.page
    ensures forall w: nat :: PteOf(t, r, w) != 0 <==> PteOf(m, r, w) != 0 || v <= w < v + n
  {
    hide Links, Leaves, FreeList, Users, MapRange, PteOf;
    MapKeepsUsers(m, t, r, v, n, pa, perm);
    SpawnMap(m, t, r, v, n, pa, perm);
    SpawnGrow(s, m, t, r);
    SpawnOthers(s, m, t, r, v, n, pa, perm);
  }

  lemma MapKeepsUsers(m: St, t: St, r: nat, v: nat, n: nat, pa: nat, perm: nat)
    requires Inv(m) && Tree(t) && Grow(m, t, r) && MapRange(m, t, r, v, n, pa, perm) && USERPAGES <= v
    ensures Inv(t)
  {
    hide Links, Leaves, FreeList, Users;
    UsersHaveData(m);
    UsersKept(m, t);
  }

  lemma SpawnOthers(s: St, m: St, t: St, r: nat, v: nat, n: nat, pa: nat, perm: nat)
    requires Spawned(s, m, r) && MapRange(m, t, r, v, n, pa, perm)
    ensures forall r': nat, w: nat | r' != r :: PteOf(t, r', w) == PteOf(s, r', w)
  {
    hide Pages;
    forall r': nat, w: nat | r' != r ensures PteOf(t, r', w) == PteOf(s, r', w) {
      assert PteOf(t, r', w) == PteOf(m, r', w);
    }
  }

  lemma SpawnMap(m: St, t: St, r: nat, v: nat, n: nat, pa: nat, perm: nat)
    requires MapRange(m, t, r, v, n, pa, perm) && pa % PGSIZE == 0
    ensures forall w: nat :: PteOf(t, r, w) != 0 <==> PteOf(m, r, w) != 0 || v <= w < v + n
  {
    hide Pages;
    forall w: nat ensures PteOf(t, r, w) != 0 <==> PteOf(m, r, w) != 0 || v <= w < v + n {
      if v <= w < v + n {
        PteRoundTrip(pa + PGSIZE * (w - v), perm);
      }
    }
  }

  /** New tables belong to the new space. */
  lemma SpawnGrow(s: St, m: St, t: St, r: nat)
    requires Spawned(s, m, r) && Grow(m, t, r) && Pages(t)
    ensures forall k | k in t.page && k.root != r :: k in s.page
    ensures forall k | k in s.page :: k.root != r && k in t.page
    ensures SameData(s, t)
  {
    forall k | k in t.page && k.root != r ensures k in s.page {
      assert t.own[t.page[k]] == Table(k);
      assert m.own[t.page[k]] == Table(k);
    }
  }

  lemma SpawnUnmapped(s: St, m: St, t: St, r: nat)
    requires Spawned(s, m, r) && Inv(t)
    requires UnmapRange(m, t, r, USERPAGES + 1, 1) && FreedUsers(m, t, r, USERPAGES + 1, 1, false)
    ensures Spawned(s, t, r) && Key(r, Root) in t.page
    ensures forall w: nat :: PteOf(t, r, w) == if w == USERPAGES + 1 then 0 else PteOf(m, r, w)
  {
    hide Links, Leaves, FreeList, Users;
    forall r': nat, w: nat | r' != r ensures PteOf(t, r', w) == PteOf(s, r', w) {
      assert PteOf(m, r', w) == PteOf(s, r', w);
    }
  }

  /** Freeing the new space undoes its creation. */
  lemma Respawned(s: St, m: St, t: St, r: nat)
    requires Spawned(s, m, r) && SpaceFreed(m, t, r)
    ensures Restored(s, t)
  {
    hide Pages;
    forall r': nat, v: nat ensures PteOf(t, r', v) == PteOf(s, r', v) {
      if r' != r {
        assert PteOf(m, r', v) == PteOf(s, r', v);
      }
    }
    forall p | p in s.own ensures t.own[p] == s.own[p] {
    }
    assert t.own == s.own;
    assert t.page.Keys == s.page.Keys;
  }

  // ---------------------------------------------------------------- processes

  /** A mapping above user memory was removed. */
  lemma KernelGone(s: St, t: St, r: nat, v: nat)
    requires Inv(s) && Inv(t) && UnmapRange(s, t, r, v, 1) && FreedUsers(s, t, r, v, 1, false)
    ensures Key(r, Root) in s.page ==> Key(r, Root) in t.page
    ensures forall w: nat :: PteOf(t, r, w) == if w == v then 0 else PteOf(s, r, w)
  {
    hide Links, Leaves, FreeList, Users;
  }

  lemma FreedAfter(s: St, m: St, t: St, r: nat, v: nat)
    requires UnmapRange(s, m, r, v, 1) && FreedUsers(s, m, r, v, 1, false) && SpaceFreed(m, t, r)
    ensures SpaceFreed(s, t, r)
  {
    hide Pages;
    forall r': nat, w: nat ensures PteOf(t, r', w) == if r' == r then 0 else PteOf(s, r', w) {
      if r' != r {
        assert PteOf(m, r', w) == PteOf(s, r', w);
      }
    }
  }

  lemma PgUpMono(a: nat, b: nat)
    requires a <= b
    ensures PgUp(a) <= PgUp(b) && PgUp(a) / PGSIZE <= PgUp(b) / PGSIZE
    ensures b <= TRAPFRAME ==> PgUp(b) / PGSIZE <= USERPAGES
  {
  }

  lemma SpaceSame(s: St, t: St, r: nat, sz: nat)
    requires Inv(t) && ProcSpace(s, r, sz) && SameMap(s, t) && Grow(s, t, r)
    ensures ProcSpace(t, r, sz)
  {
    hide Links, Leaves, FreeList, Users;
    forall v: nat ensures PteOf(t, r, v) != 0 <==> v < PgUp(sz) / PGSIZE || v == USERPAGES || v == USERPAGES + 1 {
      assert PteOf(t, r, v) == PteOf(s, r, v);
    }
  }

  lemma SpaceMapped(s: St, r: nat, sz: nat)
    requires ProcSpace(s, r, sz)
    ensures MappedBelow(s, r, PgUp(sz) / PGSIZE)
    ensures forall v: nat | PgUp(sz) / PGSIZE <= v < USERPAGES :: PteOf(s, r, v) == 0
  {
  }

  lemma SpaceGrown(s: St, t: St, r: nat, sz: nat, sz': nat)
    requires Inv(t) && ProcSpace(s, r, sz) && sz <= sz' <= TRAPFRAME
    requires Filled(s, t, r, PgUp(sz) / PGSIZE, PgUp(sz') / PGSIZE)
    ensures ProcSpace(t, r, sz')
  {
    hide Links, Leaves, FreeList, Users;
    PgUpMono(sz, sz');
    forall v: nat ensures PteOf(t, r, v) != 0 <==> v < PgUp(sz') / PGSIZE || v == USERPAGES || v == USERPAGES + 1 {
      assert PteOf(s, r, v) != 0 <==> v < PgUp(sz) / PGSIZE || v == USERPAGES || v == USERPAGES + 1;
    }
  }

  /** Exactly the user pages from `newsz` up to `sz` were unmapped and freed. */
  ghost predicate FreedFrom(s: St, t: St, r: nat, sz: nat, newsz: nat) {
    var n := (PgUp(sz) - PgUp(newsz)) / PGSIZE;
    && n >= 0
    && UnmapRange(s, t, r, PgUp(newsz) / PGSIZE, n)
    && FreedUsers(s, t, r, PgUp(newsz) / PGSIZE, n, true)
  }

  lemma SpaceShrunk(s: St, t: St, r: nat, sz: nat, newsz: nat)
    requires Inv(t) && ProcSpace(s, r, sz) && newsz <= sz <= TRAPFRAME && FreedFrom(s, t, r, sz, newsz)
    ensures ProcSpace(t, r, newsz)
  {
    hide Links, Leaves, FreeList, Users;
    PgUpMono(newsz, sz);
    forall v: nat ensures PteOf(t, r, v) != 0 <==> v < PgUp(newsz) / PGSIZE || v == USERPAGES || v == USERPAGES + 1 {
      assert PteOf(s, r, v) != 0 <==> v < PgUp(sz) / PGSIZE || v == USERPAGES || v == USERPAGES + 1;
    }
  }
}
