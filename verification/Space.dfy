/** How much free space a write needs and takes (kernel/fs.c): what `balloc`
    spends is counted against the holes in a file's block map. */
module Space {
  import opened Bytes
  import opened Inodes

  /** The state of the file system: the free map, the blocks and inodes, the
      block numbers logged since `begin_op`, and who owns each data block. */
  datatype Snap = Snap(bits: seq<bool>, img: Image, logged: set<nat>, owner: map<nat, Ref>)

  predicate Full(bits: seq<bool>) {
    forall b | 0 <= b < |bits| :: bits[b]
  }

  function FreeSet(bits: seq<bool>): set<nat> {
    set b: nat | b < |bits| && !bits[b]
  }

  function FreeCount(bits: seq<bool>): nat {
    |FreeSet(bits)|
  }

  lemma NoneFree(bits: seq<bool>)
    ensures Full(bits) <==> FreeCount(bits) == 0
  {
    if FreeCount(bits) == 0 {
      forall b | 0 <= b < |bits| ensures bits[b] {
        assert b !in FreeSet(bits);
      }
    } else {
      var b :| b in FreeSet(bits);
    }
  }

  lemma TakeOne(bits: seq<bool>, b: nat)
    requires b < |bits| && !bits[b]
    ensures FreeCount(bits) == FreeCount(bits[b := true]) + 1
  {
    assert FreeSet(bits) == FreeSet(bits[b := true]) + {b};
  }

  /** How many of the blocks `lo .. hi - 1` of file `i` have no disk block yet. */
  function Holes(img: Image, i: nat, lo: nat, hi: nat): nat
    requires Shaped(img) && i < |img.inodes| && hi <= MAXFILE
  {
    if hi <= lo then 0 else Holes(img, i, lo, hi - 1) + if Slot(img, i, hi - 1) == 0 then 1 else 0
  }

  /** How many disk blocks it takes to have all of them, with the indirect block
      if one of them needs it. */
  function Cost(img: Image, i: nat, lo: nat, hi: nat): nat
    requires Shaped(img) && i < |img.inodes| && hi <= MAXFILE
  {
    Holes(img, i, lo, hi) + if lo < hi && NDIRECT < hi && Slot(img, i, INDIRECT) == 0 then 1 else 0
  }

  /** One past the last block that `n` bytes at `off` touch. */
  function EndBlock(off: nat, n: nat): nat {
    if n == 0 then off / BSIZE else (off + n - 1) / BSIZE + 1
  }

  /** The free blocks of the disk suffice for `n` bytes at `off`. */
  predicate Affords(s: Snap, i: nat, off: nat, n: nat) {
    && Shaped(s.img) && i < |s.img.inodes| && EndBlock(off, n) <= MAXFILE
    && Cost(s.img, i, off / BSIZE, EndBlock(off, n)) <= FreeCount(s.bits)
  }

  lemma {:induction false} CostGrows(img: Image, i: nat, lo: nat, mid: nat, hi: nat)
    requires Shaped(img) && i < |img.inodes| && mid <= hi <= MAXFILE
    ensures Holes(img, i, lo, mid) <= Holes(img, i, lo, hi)
    ensures Cost(img, i, lo, mid) <= Cost(img, i, lo, hi)
    decreases hi
  {
    if mid < hi {
      CostGrows(img, i, lo, mid, hi - 1);
    }
  }

  /** Space for a longer write is space for a shorter one. */
  lemma AffordsLess(s: Snap, i: nat, off: nat, m: nat, n: nat)
    requires Affords(s, i, off, n) && m <= n
    ensures Affords(s, i, off, m)
  {
    EndGrows(off, m, n);
    CostGrows(s.img, i, off / BSIZE, EndBlock(off, m), EndBlock(off, n));
  }

  lemma EndGrows(off: nat, m: nat, n: nat)
    requires m <= n
    ensures EndBlock(off, m) <= EndBlock(off, n)
  {
  }

  // ---------------------------------------------------------------- one block

  /** One slot of file `i` was looked up, and filled from the free map if it was
      empty and a block was free; no other slot of the file changed. */
  predicate Took(s: Snap, t: Snap, i: nat, k: nat) {
    && Shaped(s.img) && Shaped(t.img) && i < |s.img.inodes| && i < |t.img.inodes| && k <= INDIRECT
    && (forall m | 0 <= m <= INDIRECT && m != k :: Slot(t.img, i, m) == Slot(s.img, i, m))
    && if Slot(s.img, i, k) != 0 || FreeCount(s.bits) == 0
       then Slot(t.img, i, k) == Slot(s.img, i, k) && t.bits == s.bits
       else Slot(t.img, i, k) != 0 && FreeCount(s.bits) == FreeCount(t.bits) + 1
  }

  /** Block `k` of file `i` was looked up: it is there afterwards exactly when
      the disk could pay for what was missing, and then that much was paid. */
  predicate Pays(s: Snap, t: Snap, i: nat, k: nat) {
    && Shaped(s.img) && Shaped(t.img) && i < |s.img.inodes| && i < |t.img.inodes| && k < MAXFILE
    && (forall m | 0 <= m < MAXFILE && m != k :: Slot(t.img, i, m) == Slot(s.img, i, m))
    && (Slot(t.img, i, k) != 0 <==> Cost(s.img, i, k, k + 1) <= FreeCount(s.bits))
    && (Slot(t.img, i, k) != 0 ==>
          && FreeCount(s.bits) == FreeCount(t.bits) + Cost(s.img, i, k, k + 1)
          && (Slot(t.img, i, INDIRECT) == 0 <==> Slot(s.img, i, INDIRECT) == 0 && k < NDIRECT))
    && (Slot(t.img, i, k) == 0 ==> FreeCount(t.bits) == 0)
  }

  lemma CostOne(img: Image, i: nat, k: nat)
    requires Shaped(img) && i < |img.inodes| && k < MAXFILE
    ensures Cost(img, i, k, k + 1) == (if Slot(img, i, k) == 0 then 1 else 0)
                                      + if NDIRECT <= k && Slot(img, i, INDIRECT) == 0 then 1 else 0
  {
    assert Holes(img, i, k, k) == 0;
  }

  lemma PaysDirect(s: Snap, t: Snap, i: nat, k: nat)
    requires Took(s, t, i, k) && k < NDIRECT
    ensures Pays(s, t, i, k)
  {
    CostOne(s.img, i, k);
  }

  lemma PaysNothing(s: Snap, t: Snap, i: nat, k: nat)
    requires Took(s, t, i, INDIRECT) && NDIRECT <= k < INDIRECT && Slot(t.img, i, INDIRECT) == 0
    ensures Pays(s, t, i, k)
  {
    CostOne(s.img, i, k);
  }

  lemma PaysIndirect(s: Snap, m: Snap, t: Snap, i: nat, k: nat)
    requires Took(s, m, i, INDIRECT) && NDIRECT <= k < INDIRECT && Slot(m.img, i, INDIRECT) != 0 && Took(m, t, i, k)
    ensures Pays(s, t, i, k)
  {
    CostOne(s.img, i, k);
  }

  lemma PaysSame(s: Snap, m: Snap, t: Snap, i: nat, k: nat)
    requires Pays(s, m, i, k) && SameSlots(m.img, t.img) && t.bits == m.bits
    ensures Pays(s, t, i, k)
  {
  }

  // ---------------------------------------------------------------- a range of blocks

  /** Blocks `lo .. hi - 1` of file `i` were filled in between, and nothing more
      was paid than they were missing. */
  predicate Budget(s: Snap, t: Snap, i: nat, lo: nat, hi: nat) {
    && Shaped(s.img) && Shaped(t.img) && i < |s.img.inodes| && i < |t.img.inodes| && lo <= hi <= MAXFILE
    && FreeCount(s.bits) == FreeCount(t.bits) + Cost(s.img, i, lo, hi)
    && (forall m | lo <= m < hi :: Slot(t.img, i, m) != 0)
    && (forall m | 0 <= m < MAXFILE && !(lo <= m < hi) :: Slot(t.img, i, m) == Slot(s.img, i, m))
    && (Slot(t.img, i, INDIRECT) == 0 <==> Slot(s.img, i, INDIRECT) == 0 && !(lo < hi && NDIRECT < hi))
  }

  lemma BudgetStart(s: Snap, i: nat, lo: nat)
    requires Shaped(s.img) && i < |s.img.inodes| && lo <= MAXFILE
    ensures Budget(s, s, i, lo, lo)
  {
  }

  /** The next block is had exactly when the disk can pay for the whole range. */
  lemma BudgetStep(s: Snap, m: Snap, t: Snap, i: nat, lo: nat, k: nat)
    requires Budget(s, m, i, lo, k) && k < MAXFILE && Pays(m, t, i, k)
    ensures Slot(t.img, i, k) != 0 <==> Cost(s.img, i, lo, k + 1) <= FreeCount(s.bits)
    ensures Slot(t.img, i, k) != 0 ==> Budget(s, t, i, lo, k + 1)
  {
    CostOne(m.img, i, k);
  }

  lemma BudgetSame(s: Snap, m: Snap, t: Snap, i: nat, lo: nat, hi: nat)
    requires Budget(s, m, i, lo, hi) && SameSlots(m.img, t.img) && t.bits == m.bits
    ensures Budget(s, t, i, lo, hi)
  {
  }

  lemma {:induction false} NoHolesIn(img: Image, i: nat, lo: nat, hi: nat)
    requires Shaped(img) && i < |img.inodes| && hi <= MAXFILE
    requires forall m | lo <= m < hi :: Slot(img, i, m) != 0
    ensures Holes(img, i, lo, hi) == 0
    decreases hi
  {
    if lo < hi {
      NoHolesIn(img, i, lo, hi - 1);
    }
  }

  /** What a second range costs after a first one that it continues. */
  lemma {:induction false} CostAfter(s: Snap, m: Snap, i: nat, lo: nat, mid: nat, hi: nat, from: nat)
    requires Budget(s, m, i, lo, mid) && lo <= from <= mid <= hi <= MAXFILE && (from < hi || lo == hi)
    ensures Holes(s.img, i, lo, hi) == Holes(s.img, i, lo, mid) + Holes(m.img, i, from, hi)
    ensures Cost(s.img, i, lo, hi) == Cost(s.img, i, lo, mid) + Cost(m.img, i, from, hi)
    decreases hi
  {
    if hi == mid {
      NoHolesIn(m.img, i, from, hi);
    } else if hi == mid + 1 {
      NoHolesIn(m.img, i, from, mid);
      assert Holes(s.img, i, lo, hi) == Holes(s.img, i, lo, mid) + if Slot(s.img, i, mid) == 0 then 1 else 0;
      assert Holes(m.img, i, from, hi) == Holes(m.img, i, from, mid) + if Slot(m.img, i, mid) == 0 then 1 else 0;
    } else {
      CostAfter(s, m, i, lo, mid, hi - 1, from);
    }
  }

  /** Two ranges, the second continuing the first, are one. */
  lemma BudgetTrans(s: Snap, m: Snap, t: Snap, i: nat, lo: nat, mid: nat, hi: nat, from: nat)
    requires Budget(s, m, i, lo, mid) && Budget(m, t, i, from, hi)
    requires lo <= from <= mid <= hi && (from < hi || lo == hi)
    ensures Budget(s, t, i, lo, hi)
  {
    CostAfter(s, m, i, lo, mid, hi, from);
    forall x | lo <= x < hi ensures Slot(t.img, i, x) != 0 {
      if x < from {
        assert Slot(m.img, i, x) != 0;
      }
    }
  }
}
