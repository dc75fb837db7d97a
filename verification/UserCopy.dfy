/** `walkaddr`, `copyin` and `copyout` of kernel/vm.c: moving bytes across page
    boundaries of a user address space. */
module UserCopy {
  import opened PageTable
  import opened Vm

  predicate IsUser(pte: nat) { pte / 16 % 2 == 1 }
  predicate IsWritable(pte: nat) { pte / 4 % 2 == 1 }

  /** User code may read virtual address `va` of `r`. */
  predicate Readable(s: St, r: nat, va: nat)
    requires Pages(s)
  {
    va < MAXVA && IsValid(PteOf(s, r, va / PGSIZE)) && IsUser(PteOf(s, r, va / PGSIZE))
  }

  predicate Writable(s: St, r: nat, va: nat)
    requires Pages(s)
  {
    Readable(s, r, va) && IsWritable(PteOf(s, r, va / PGSIZE))
  }

  /** Nothing above user memory is open to user code. */
  ghost predicate KernelOnly(s: St)
    requires Pages(s)
  {
    forall r: nat, v: nat | USERPAGES <= v :: !IsUser(PteOf(s, r, v))
  }

  /** The byte of user memory at `va`. */
  function ByteOf(s: St, r: nat, va: nat): int
    requires Pages(s)
  {
    var pa := Pte2Pa(PteOf(s, r, va / PGSIZE));
    if pa in s.data && va % PGSIZE < |s.data[pa]| then s.data[pa][va % PGSIZE] else 0
  }

  /** A new address space gives user code nothing above user memory ... */
  lemma SpawnKernelOnly(s: St, t: St, r: nat, trampoline: nat, trapframe: nat)
    requires Pages(s) && KernelOnly(s) && Spawned(s, t, r) && ProcSpace(t, r, 0) && Windows(t, r, trampoline, trapframe)
    requires trampoline % PGSIZE == 0 && trapframe % PGSIZE == 0
    ensures KernelOnly(t)
  {
    hide Pages;
    forall r': nat, v: nat | USERPAGES <= v ensures !IsUser(PteOf(t, r', v)) {
      if r' == r {
        NotUser(trampoline, PTE_R + PTE_X);
        NotUser(trapframe, PTE_R + PTE_W);
      } else {
        assert PteOf(t, r', v) == PteOf(s, r', v);
      }
    }
  }

  /** ... and no change to user memory alters that. */
  lemma GrowKernelOnly(s: St, t: St, r: nat, lo: nat, hi: nat)
    requires Pages(s) && KernelOnly(s) && hi <= USERPAGES
    requires Filled(s, t, r, lo, hi) || UnmapRange(s, t, r, lo, hi) || SameMap(s, t) || SpaceFreed(s, t, r)
    ensures Pages(t) && KernelOnly(t)
  {
    hide Pages;
    forall r': nat, v: nat | USERPAGES <= v ensures !IsUser(PteOf(t, r', v)) {
      assert !IsUser(PteOf(s, r', v));
    }
  }

  lemma NotUser(pa: nat, perm: nat)
    requires pa % PGSIZE == 0 && perm < 16
    ensures !IsUser(MakePte(pa, perm))
  {
    FlagBits(pa / PGSIZE, if perm % 2 == 1 then perm else perm + 1);
  }

  /** A readable page belongs to user memory and has its bytes. */
  lemma ReadablePage(s: St, r: nat, va: nat)
    requires Inv(s) && KernelOnly(s) && Readable(s, r, va)
    ensures var pa := Pte2Pa(PteOf(s, r, va / PGSIZE));
            pa != 0 && PageData(s, pa) && pa in s.own && s.own[pa] == User(r, va / PGSIZE)
  {
    hide Links, Leaves, FreeList;
    assert va / PGSIZE < USERPAGES;
    assert PteOf(s, r, va / PGSIZE) != 0;
  }

  /** `walkaddr`: the physical page of a readable address, 0 otherwise. */
  method Walkaddr(m: Memory, root: nat, va: nat) returns (pa: nat)
    requires Inv(m.Now()) && Key(root, Root) in m.page && KernelOnly(m.Now())
    modifies m`freelist, m`tables, m`page, m`own
    ensures m.Now() == old(m.Now())
    ensures pa != 0 <==> Readable(m.Now(), root, va)
    ensures pa != 0 ==> pa == Pte2Pa(PteOf(m.Now(), root, va / PGSIZE)) && PageData(m.Now(), pa)
  {
    hide Links, Leaves, FreeList, Users, KernelOnly, SameMap, Grow;
    if va >= MAXVA {
      return 0;
    }
    SlotOf(va);
    var pt := m.Walk(root, va, false);
    if pt == 0 {
      return 0;
    }
    var pte := m.tables[pt][Px(0, va)];
    if !IsValid(pte) {
      return 0;
    }
    if !IsUser(pte) {
      return 0;
    }
    ReadablePage(m.Now(), root, va);
    pa := Pte2Pa(pte);
  }

  lemma SlotOf(va: nat)
    ensures va / 0x20_0000 == va / PGSIZE / PTES && Px(0, va) == va / PGSIZE % PTES
  {
  }

  /** `out` is what user memory holds from `va` on, all of it readable. */
  predicate ReadAs(s: St, r: nat, va: nat, out: seq<int>)
    requires Pages(s)
  {
    forall w | va <= w < va + |out| :: Readable(s, r, w) && out[w - va] == ByteOf(s, r, w)
  }

  /** `copyin`: the bytes from `srcva` on, or, when not all can be read, those
      before the first that cannot. */
  method Copyin(m: Memory, root: nat, srcva: nat, len: nat) returns (ret: int, out: seq<int>)
    requires Inv(m.Now()) && Key(root, Root) in m.page && KernelOnly(m.Now())
    modifies m`freelist, m`tables, m`page, m`own
    ensures m.Now() == old(m.Now())
    ensures ReadAs(m.Now(), root, srcva, out)
    ensures if ret == 0 then |out| == len else ret == -1 && |out| < len && !Readable(m.Now(), root, srcva + |out|)
  {
    hide Links, Leaves, FreeList, Users, KernelOnly, Readable, ByteOf;
    out := [];
    var va, left := srcva, len;
    while left > 0
      invariant m.Now() == old(m.Now())
      invariant left >= 0 && |out| + left == len && (left > 0 ==> va == srcva + |out|)
      invariant ReadAs(m.Now(), root, srcva, out)
    {
      var va0 := va / PGSIZE * PGSIZE;
      SamePage(m.Now(), root, va, va0);
      var pa0 := Walkaddr(m, root, va0);
      if pa0 == 0 {
        return -1, out;
      }
      var n := PGSIZE - (va - va0);
      if n > left {
        n := left;
      }
      ReadMore(m.Now(), root, srcva, out, n);
      out := out + m.data[pa0][va - va0..va - va0 + n];
      left := left - n;
      va := va0 + PGSIZE;
    }
    ret := 0;
  }

  lemma SamePage(s: St, r: nat, va: nat, w: nat)
    requires Pages(s) && w == va / PGSIZE * PGSIZE
    ensures va / PGSIZE == w / PGSIZE && Readable(s, r, va) == Readable(s, r, w)
  {
    assert va / PGSIZE == w / PGSIZE;
    assert va < MAXVA <==> va / PGSIZE < MAXVA / PGSIZE;
    assert w < MAXVA <==> w / PGSIZE < MAXVA / PGSIZE;
  }

  lemma ReadMore(s: St, r: nat, va: nat, out: seq<int>, n: nat)
    requires Pages(s) && ReadAs(s, r, va, out) && Readable(s, r, va + |out|)
    requires (va + |out|) % PGSIZE + n <= PGSIZE && PageData(s, Pte2Pa(PteOf(s, r, (va + |out|) / PGSIZE)))
    ensures var o := va + |out|;
            ReadAs(s, r, va, out + s.data[Pte2Pa(PteOf(s, r, o / PGSIZE))][o % PGSIZE..o % PGSIZE + n])
  {
    hide Pages;
    var o := va + |out|;
    var pa := Pte2Pa(PteOf(s, r, o / PGSIZE));
    var out' := out + s.data[pa][o % PGSIZE..o % PGSIZE + n];
    forall w | va <= w < va + |out'| ensures Readable(s, r, w) && out'[w - va] == ByteOf(s, r, w) {
      if w >= o {
        InPage(o, n, w);
      }
    }
  }

  lemma InPage(o: nat, n: nat, w: nat)
    requires o % PGSIZE + n <= PGSIZE && o <= w < o + n
    ensures w / PGSIZE == o / PGSIZE && w % PGSIZE == o % PGSIZE + (w - o) && (o < MAXVA ==> w < MAXVA)
  {
  }

  /** User memory of `r` now holds `bytes` from `va` on; every other readable
      byte, of this or any other address space, is as it was. */
  ghost predicate Stored(s: St, t: St, r: nat, va: nat, bytes: seq<int>) {
    && Pages(s) && t == s.(data := t.data)
    && (forall w | va <= w < va + |bytes| :: Writable(s, r, w))
    && (forall r': nat, w: nat | Readable(s, r', w) ::
          ByteOf(t, r', w) == if r' == r && va <= w < va + |bytes| then bytes[w - va] else ByteOf(s, r', w))
  }

  /** The page at `pa` with `bytes` stored from `at` on. */
  function PutBytes(s: St, pa: nat, at: nat, bytes: seq<int>): St
    requires PageData(s, pa) && at + |bytes| <= PGSIZE
  {
    s.(data := s.data[pa := s.data[pa][..at] + bytes + s.data[pa][at + |bytes|..]])
  }

  lemma DataOnly(s: St, t: St)
    requires Inv(s) && KernelOnly(s) && t == s.(data := t.data)
    requires forall p | PageData(s, p) :: PageData(t, p)
    ensures Inv(t) && KernelOnly(t) && Pages(t)
    ensures forall r: nat, va: nat :: Readable(t, r, va) == Readable(s, r, va) && Writable(t, r, va) == Writable(s, r, va)
  {
    hide Links, Leaves, FreeList;
    TreeIgnoresData(s, t);
    UsersHaveData(s);
    UsersKept(s, t);
    forall r: nat, va: nat ensures Readable(t, r, va) == Readable(s, r, va) && Writable(t, r, va) == Writable(s, r, va) {
      assert PteOf(t, r, va / PGSIZE) == PteOf(s, r, va / PGSIZE);
    }
  }

  /** Bytes stored in one page of `r` are seen through no other mapping. */
  lemma PutInPage(s: St, r: nat, va: nat, bytes: seq<int>)
    requires Inv(s) && KernelOnly(s) && Writable(s, r, va) && va % PGSIZE + |bytes| <= PGSIZE
    ensures PageData(s, Pte2Pa(PteOf(s, r, va / PGSIZE)))
    ensures Stored(s, PutBytes(s, Pte2Pa(PteOf(s, r, va / PGSIZE)), va % PGSIZE, bytes), r, va, bytes)
  {
    hide Links, Leaves, FreeList, Users, KernelOnly;
    ReadablePage(s, r, va);
    var pa := Pte2Pa(PteOf(s, r, va / PGSIZE));
    var t := PutBytes(s, pa, va % PGSIZE, bytes);
    forall w | va <= w < va + |bytes| ensures Writable(s, r, w) {
      InPage(va, |bytes|, w);
    }
    forall r': nat, w: nat | Readable(s, r', w)
      ensures ByteOf(t, r', w) == if r' == r && va <= w < va + |bytes| then bytes[w - va] else ByteOf(s, r', w)
    {
      PutByte(s, r, va, bytes, r', w);
    }
  }

  lemma PutByte(s: St, r: nat, va: nat, bytes: seq<int>, r': nat, w: nat)
    requires Inv(s) && KernelOnly(s) && Readable(s, r, va) && va % PGSIZE + |bytes| <= PGSIZE && Readable(s, r', w)
    requires PageData(s, Pte2Pa(PteOf(s, r, va / PGSIZE)))
    ensures var t := PutBytes(s, Pte2Pa(PteOf(s, r, va / PGSIZE)), va % PGSIZE, bytes);
            Pages(t) && ByteOf(t, r', w) == if r' == r && va <= w < va + |bytes| then bytes[w - va] else ByteOf(s, r', w)
  {
    hide Links, Leaves, FreeList, Users, KernelOnly;
    ReadablePage(s, r, va);
    ReadablePage(s, r', w);
    var pa := Pte2Pa(PteOf(s, r, va / PGSIZE));
    var t := PutBytes(s, pa, va % PGSIZE, bytes);
    assert PteOf(t, r', w / PGSIZE) == PteOf(s, r', w / PGSIZE);
    if Pte2Pa(PteOf(s, r', w / PGSIZE)) == pa {
      assert r' == r && w / PGSIZE == va / PGSIZE;
      assert w - va == w % PGSIZE - va % PGSIZE;
    } else if r' == r && va <= w < va + |bytes| {
      InPage(va, |bytes|, w);
    }
  }

  lemma StoredMore(s: St, m: St, t: St, r: nat, va: nat, done: seq<int>, more: seq<int>)
    requires Stored(s, m, r, va, done) && Pages(m) && Stored(m, t, r, va + |done|, more) && Pages(t)
    requires forall r': nat, w: nat :: Readable(m, r', w) == Readable(s, r', w) && Writable(m, r', w) == Writable(s, r', w)
    ensures Stored(s, t, r, va, done + more)
  {
    hide Pages;
    forall w | va <= w < va + |done + more| ensures Writable(s, r, w) {
      if w >= va + |done| {
        assert Writable(m, r, w);
      }
    }
    forall r': nat, w: nat | Readable(s, r', w)
      ensures ByteOf(t, r', w) == if r' == r && va <= w < va + |done + more| then (done + more)[w - va] else ByteOf(s, r', w)
    {
      assert Readable(m, r', w);
      assert ByteOf(m, r', w) == if r' == r && va <= w < va + |done| then done[w - va] else ByteOf(s, r', w);
    }
  }

  /** `copyout`: store `src` from `dstva` on, or, when not all can be written,
      the bytes before the first that cannot. */
  method Copyout(m: Memory, root: nat, dstva: nat, src: seq<int>) returns (ret: int, ghost done: nat)
    requires Inv(m.Now()) && Key(root, Root) in m.page && KernelOnly(m.Now())
    modifies m
    ensures Inv(m.Now()) && KernelOnly(m.Now()) && done <= |src|
    ensures Stored(old(m.Now()), m.Now(), root, dstva, src[..done])
    ensures if ret == 0 then done == |src| else ret == -1 && done < |src| && !Writable(old(m.Now()), root, dstva + done)
  {
    hide Links, Leaves, FreeList, Users, KernelOnly, Readable, Writable, Stored, ByteOf, SameAccess, SameMap, Grow, PteOf;
    ghost var s0 := m.Now();
    var va, at := dstva, 0;
    StoredNone(s0, root, dstva);
    assert src[..0] == [];
    while at < |src|
      invariant 0 <= at <= |src| && (at < |src| ==> va == dstva + at)
      invariant Inv(m.Now()) && KernelOnly(m.Now()) && m.page == old(m.page)
      invariant Stored(s0, m.Now(), root, dstva, src[..at])
      invariant SameAccess(s0, m.Now())
    {
      var va0 := va / PGSIZE * PGSIZE;
      ghost var s := m.Now();
      SamePage(s, root, va, va0);
      if va0 >= MAXVA {
        NotWritable(s0, root, va);
        return -1, at;
      }
      SlotOf(va0);
      var pt := m.Walk(root, va0, false);
      EntryWritable(s, root, va, pt);
      if pt == 0 || !IsValid(m.tables[pt][Px(0, va0)]) || !IsUser(m.tables[pt][Px(0, va0)]) || !IsWritable(m.tables[pt][Px(0, va0)]) {
        Same(s0, s, root, va);
        return -1, at;
      }
      var pa0 := Pte2Pa(m.tables[pt][Px(0, va0)]);
      var n := PGSIZE - (va - va0);
      if n > |src| - at {
        n := |src| - at;
      }
      WriteMore(s0, s, root, dstva, src, at, n);
      m.data := m.data[pa0 := m.data[pa0][..va - va0] + src[at..at + n] + m.data[pa0][va - va0 + n..]];
      at := at + n;
      va := va0 + PGSIZE;
    }
    assert src[..at] == src;
    ret, done := 0, at;
  }

  ghost predicate SameAccess(s: St, t: St)
    requires Pages(s) && Pages(t)
  {
    forall r: nat, w: nat :: Readable(t, r, w) == Readable(s, r, w) && Writable(t, r, w) == Writable(s, r, w)
  }

  lemma StoredNone(s: St, r: nat, va: nat)
    requires Pages(s)
    ensures Stored(s, s, r, va, []) && SameAccess(s, s)
  {
  }

  lemma Same(s: St, t: St, r: nat, va: nat)
    requires Pages(s) && Pages(t) && SameAccess(s, t)
    ensures Writable(t, r, va) == Writable(s, r, va)
  {
  }

  lemma NotWritable(s: St, r: nat, va: nat)
    requires Pages(s) && va / PGSIZE * PGSIZE >= MAXVA
    ensures !Writable(s, r, va)
  {
  }

  lemma EntryWritable(s: St, r: nat, va: nat, pt: nat)
    requires Pages(s) && va / PGSIZE * PGSIZE < MAXVA
    requires if pt == 0 then Key(r, Low(va / PGSIZE / PTES)) !in s.page
             else HasEntry(s, r, va / PGSIZE) && pt == s.page[Key(r, Low(va / PGSIZE / PTES))]
    ensures pt != 0 ==> PteOf(s, r, va / PGSIZE) == s.tables[pt][va / PGSIZE % PTES]
    ensures Writable(s, r, va) <==>
            pt != 0 && var e := s.tables[pt][va / PGSIZE % PTES]; IsValid(e) && IsUser(e) && IsWritable(e)
  {
    assert va < MAXVA;
  }

  lemma WriteMore(s0: St, s: St, r: nat, dst: nat, src: seq<int>, at: nat, n: nat)
    requires at + n <= |src|
    requires Inv(s0) && Inv(s) && KernelOnly(s) && Stored(s0, s, r, dst, src[..at]) && SameAccess(s0, s)
    requires Writable(s, r, dst + at) && (dst + at) % PGSIZE + n <= PGSIZE
    ensures var pa := Pte2Pa(PteOf(s, r, (dst + at) / PGSIZE));
            && PageData(s, pa)
            && var t := PutBytes(s, pa, (dst + at) % PGSIZE, src[at..at + n]);
            && Inv(t) && KernelOnly(t) && Stored(s0, t, r, dst, src[..at + n]) && SameAccess(s0, t)
  {
    hide Links, Leaves, FreeList, Users, KernelOnly, Stored;
    var va := dst + at;
    PutInPage(s, r, va, src[at..at + n]);
    var t := PutBytes(s, Pte2Pa(PteOf(s, r, va / PGSIZE)), va % PGSIZE, src[at..at + n]);
    DataOnly(s, t);
    StoredMore(s0, s, t, r, dst, src[..at], src[at..at + n]);
    assert src[..at] + src[at..at + n] == src[..at + n];
  }
}
