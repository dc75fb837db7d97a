/** The memory side of `fork` in kernel/proc.c: a trapframe page, a page table
    and a copy of the parent's memory, or nothing at all. */
module Fork {
  import opened PageTable
  import opened Vm

  /** Address space `child` appeared with a copy of the parent's pages; every
      other address space, and every page in use, is as it was. */
  ghost predicate Forked(s: St, t: St, parent: nat, child: nat, trapframe: nat, sz: nat) {
    && Pages(s) && Pages(t) && Copied(s, t, parent, child, PgUp(sz) / PGSIZE)
    && (forall r: nat, v: nat | r != child :: PteOf(t, r, v) == PteOf(s, r, v))
    && t.own.Keys == s.own.Keys && trapframe in s.own && s.own[trapframe] == Free && t.own[trapframe] == Other
    && (forall p | p in s.own && p != trapframe :: t.own[p] == s.own[p] || (s.own[p] == Free && OfSpace(t.own[p], child)))
    && SameData(s, t)
  }

  /** `fork` as far as memory goes: `allocproc` with its two allocations, then
      `uvmcopy`; `freeproc` on every failure. */
  method ForkMemory(m: Memory, parent: nat, sz: nat, trampoline: nat) returns (child: nat, trapframe: nat)
    requires Inv(m.Now()) && ProcSpace(m.Now(), parent, sz) && sz <= TRAPFRAME && trampoline % PGSIZE == 0
    modifies m
    ensures Inv(m.Now())
    ensures child == 0 ==> Restored(old(m.Now()), m.Now())
    ensures child != 0 ==> && Forked(old(m.Now()), m.Now(), parent, child, trapframe, sz)
                           && ProcSpace(m.Now(), child, sz) && Windows(m.Now(), child, trampoline, trapframe)
  {
    hide Pages, Links, Leaves, FreeList, Users, SameMap, Grow, Spawned, Restored, Windows, Filled, Copied, SpaceFreed, ProcSpace, Forked;
    ghost var s0 := m.Now();
    SameRestored(s0);
    trapframe := m.Kalloc();
    if trapframe == 0 {
      return 0, 0;
    }
    ghost var s1 := m.Now();
    TrapframeTaken(s0, parent, sz);
    child := m.ProcPagetable(trampoline, trapframe);
    ghost var s2 := m.Now();
    if child != 0 {
      ParentKept(s1, s2, parent, child, sz);
      var r := m.Uvmcopy(parent, child, sz);
      ghost var s3 := m.Now();
      if r >= 0 {
        ForkDone(s0, s2, s3, parent, child, trapframe, trampoline, sz);
        return;
      }
      SpaceSame(s2, s3, child, 0);
      SpawnGrown(s1, s2, s3, child);
      TrapframeFirst(s0, s3, trapframe, child);
      m.Kfree(trapframe);
      ghost var s4 := m.Now();
      m.ProcFreepagetable(child, 0);
      Respawned(s0, s4, m.Now(), child);
      return 0, trapframe;
    }
    TrapframeBack(s0, m.Now(), trapframe);
    m.Kfree(trapframe);
  }

  lemma TrapframeTaken(s: St, parent: nat, sz: nat)
    requires Inv(s) && s.freelist != [] && ProcSpace(s, parent, sz)
    ensures s.freelist[0] in s.own && s.own[s.freelist[0]] == Free && s.freelist[0] % PGSIZE == 0
    ensures Inv(Taken(s)) && ProcSpace(Taken(s), parent, sz)
  {
    hide Links, Leaves;
    assert s.freelist[0] in s.freelist;
    hide FreeList;
    TakenPage(s);
    UsersHaveData(s);
    UsersKept(s, Taken(s));
    forall v: nat ensures PteOf(Taken(s), parent, v) == PteOf(s, parent, v) {
    }
  }

  /** The parent's address space is not the new one. */
  lemma ParentKept(s: St, t: St, parent: nat, child: nat, sz: nat)
    requires ProcSpace(s, parent, sz) && Spawned(s, t, child) && ProcSpace(t, child, 0) && sz <= TRAPFRAME
    ensures parent != child && ProcSpace(t, parent, sz) && Key(parent, Root) in t.page && Key(child, Root) in t.page
    ensures Pages(t) && forall v: nat | v < PgUp(sz) / PGSIZE :: PteOf(t, parent, v) != 0 && PteOf(t, child, v) == 0
  {
    hide Pages;
    PgUpMono(0, sz);
    assert Key(parent, Root) in s.page;
    forall v: nat ensures PteOf(t, parent, v) == PteOf(s, parent, v) {
    }
  }

  /** The failed copy only added tables to the new space. */
  lemma SpawnGrown(s: St, m: St, t: St, r: nat)
    requires Spawned(s, m, r) && SameMap(m, t) && Grow(m, t, r)
    ensures Spawned(s, t, r)
  {
    hide Pages, PteOf;
    SpawnGrow(s, m, t, r);
    forall r': nat, v: nat | r' != r ensures PteOf(t, r', v) == PteOf(s, r', v) {
      assert PteOf(t, r', v) == PteOf(m, r', v);
    }
  }

  lemma OtherFreed(t: St, p: nat)
    requires Inv(t) && p in t.own && t.own[p] == Other
    ensures Inv(Freed(t, p)) && forall r: nat, v: nat :: PteOf(Freed(t, p), r, v) == PteOf(t, r, v)
  {
    hide Links, Leaves, FreeList;
    FreedPage(t, p);
    UsersHaveData(t);
    UsersKept(t, Freed(t, p));
  }

  lemma TakenMap(s: St)
    requires Inv(s) && s.freelist != []
    ensures Pages(Taken(s)) && forall r: nat, v: nat :: PteOf(Taken(s), r, v) == PteOf(s, r, v)
  {
    hide Links, Leaves, FreeList, Users;
    TakenPage(s);
  }

  /** The trapframe page is free again while the page table still maps it. */
  lemma TrapframeFirst(s: St, t: St, p: nat, r: nat)
    requires Inv(s) && s.freelist != [] && p == s.freelist[0] && p in s.own && s.own[p] == Free
    requires Inv(t) && Spawned(Taken(s), t, r) && ProcSpace(t, r, 0)
    ensures p in t.own && t.own[p] == Other
    ensures Inv(Freed(t, p)) && Spawned(s, Freed(t, p), r) && ProcSpace(Freed(t, p), r, 0)
  {
    hide Links, Leaves, FreeList, Users, Pages, PteOf;
    TakenMap(s);
    OtherFreed(t, p);
    var u := Freed(t, p);
    assert Key(r, Root) in u.page && u.own.Keys == s.own.Keys && SameData(s, u);
    assert forall r': nat, v: nat | r' != r :: PteOf(u, r', v) == PteOf(s, r', v);
    assert forall v: nat :: PteOf(s, r, v) == 0;
    SpawnedPages(s, t, p, r);
  }

  lemma SpawnedPages(s: St, t: St, p: nat, r: nat)
    requires s.freelist != [] && p == s.freelist[0] && p in s.own && s.own[p] == Free && Spawned(Taken(s), t, r)
    ensures forall q | q in s.own :: q in t.own && !OfSpace(s.own[q], r) &&
              (Freed(t, p).own[q] == s.own[q] || (s.own[q] == Free && t.own[q].Table? && t.own[q].key.root == r))
  {
    hide Pages, PteOf, SameData;
    forall q | q in s.own
      ensures q in t.own && !OfSpace(s.own[q], r)
      ensures Freed(t, p).own[q] == s.own[q] || (s.own[q] == Free && t.own[q].Table? && t.own[q].key.root == r)
    {
      assert q in Taken(s).own;
    }
  }

  lemma TrapframeBack(s: St, t: St, p: nat)
    requires Inv(s) && s.freelist != [] && p == s.freelist[0] && p in s.own && s.own[p] == Free
    requires Inv(t) && Restored(Taken(s), t)
    ensures p in t.own && t.own[p] == Other && Inv(Freed(t, p)) && Restored(s, Freed(t, p))
  {
    hide Links, Leaves, FreeList, Users, Pages, PteOf;
    TakenMap(s);
    OtherFreed(t, p);
    assert Freed(t, p).own == s.own;
  }

  lemma ForkDone(s: St, m: St, t: St, parent: nat, child: nat, trapframe: nat, trampoline: nat, sz: nat)
    requires Inv(s) && s.freelist != [] && trapframe == s.freelist[0] && trapframe in s.own && s.own[trapframe] == Free
    requires Spawned(Taken(s), m, child) && ProcSpace(m, child, 0) && Windows(m, child, trampoline, trapframe)
    requires Inv(m) && Inv(t) && parent != child && sz <= TRAPFRAME && ProcSpace(s, parent, sz)
    requires Filled(m, t, child, 0, PgUp(sz) / PGSIZE) && Copied(m, t, parent, child, PgUp(sz) / PGSIZE)
    ensures Forked(s, t, parent, child, trapframe, sz) && ProcSpace(t, child, sz) && Windows(t, child, trampoline, trapframe)
  {
    hide Pages, Links, Leaves, FreeList, Users, Copied, Filled, Spawned, ProcSpace, Windows;
    PgUpMono(0, sz);
    SpaceGrown(m, t, child, 0, sz);
    ForkWindows(m, t, child, trampoline, trapframe, sz);
    ForkOthers(s, m, t, child, sz);
    ForkCopied(s, m, t, parent, child, sz);
    ForkOwners(s, m, t, child, trapframe, sz);
  }

  lemma ForkWindows(m: St, t: St, child: nat, trampoline: nat, trapframe: nat, sz: nat)
    requires Windows(m, child, trampoline, trapframe) && Filled(m, t, child, 0, PgUp(sz) / PGSIZE) && sz <= TRAPFRAME
    ensures Windows(t, child, trampoline, trapframe)
  {
    hide Pages;
    PgUpMono(sz, TRAPFRAME);
    assert PteOf(t, child, USERPAGES) == PteOf(m, child, USERPAGES);
    assert PteOf(t, child, USERPAGES + 1) == PteOf(m, child, USERPAGES + 1);
  }

  lemma ForkOwners(s: St, m: St, t: St, child: nat, trapframe: nat, sz: nat)
    requires s.freelist != [] && trapframe == s.freelist[0] && trapframe in s.own && s.own[trapframe] == Free
    requires Spawned(Taken(s), m, child) && Filled(m, t, child, 0, PgUp(sz) / PGSIZE)
    ensures t.own.Keys == s.own.Keys && t.own[trapframe] == Other && SameData(s, t)
    ensures forall p | p in s.own && p != trapframe :: t.own[p] == s.own[p] || (s.own[p] == Free && OfSpace(t.own[p], child))
  {
    hide Pages;
  }

  lemma ForkOthers(s: St, m: St, t: St, child: nat, sz: nat)
    requires Pages(s) && s.freelist != [] && Spawned(Taken(s), m, child) && Filled(m, t, child, 0, PgUp(sz) / PGSIZE)
    ensures forall r: nat, v: nat | r != child :: PteOf(t, r, v) == PteOf(s, r, v)
  {
    hide Pages;
    forall r: nat, v: nat | r != child ensures PteOf(t, r, v) == PteOf(s, r, v) {
      assert PteOf(t, r, v) == PteOf(m, r, v);
      assert PteOf(m, r, v) == PteOf(Taken(s), r, v);
    }
  }

  /** What was copied is what the parent had before the fork began. */
  lemma ForkCopied(s: St, m: St, t: St, parent: nat, child: nat, sz: nat)
    requires Inv(s) && s.freelist != [] && s.freelist[0] in s.own && s.own[s.freelist[0]] == Free
    requires Spawned(Taken(s), m, child) && parent != child && ProcSpace(s, parent, sz) && sz <= TRAPFRAME
    requires Copied(m, t, parent, child, PgUp(sz) / PGSIZE)
    ensures Copied(s, t, parent, child, PgUp(sz) / PGSIZE)
  {
    hide Pages, Links, Leaves, FreeList, Users, Spawned;
    PgUpMono(sz, TRAPFRAME);
    forall v | 0 <= v < PgUp(sz) / PGSIZE ensures CopiedPage(s, t, parent, child, v) {
      ForkPage(s, m, t, parent, child, v);
    }
  }

  lemma ForkPage(s: St, m: St, t: St, parent: nat, child: nat, v: nat)
    requires Inv(s) && s.freelist != [] && s.freelist[0] in s.own && s.own[s.freelist[0]] == Free
    requires Spawned(Taken(s), m, child) && parent != child && v < USERPAGES && PteOf(s, parent, v) != 0
    requires CopiedPage(m, t, parent, child, v)
    ensures CopiedPage(s, t, parent, child, v)
  {
    hide Links, Leaves, FreeList;
    assert PteOf(m, parent, v) == PteOf(Taken(s), parent, v) == PteOf(s, parent, v);
  }
}
