/** What `itrunc` logs (kernel/fs.c), against what `begin_op` reserved for it
    (kernel/log.c).  It logs one bitmap block for each that holds a bit of the
    file's blocks, and the inode's block.  How many that can be depends on the
    size of the disk and, as `balloc` gives out the lowest free block, on how many
    blocks all files together can have. */
module TruncLog {
  import opened Bytes
  import opened Inodes
  import opened FileSystem
  import opened Params
  import opened Sequences
  import opened Space

  /** How many bitmap blocks hold bits of the data blocks below `top`. */
  function DataMaps(nmeta: nat, top: nat): nat {
    if nmeta < top then (top - 1) / BPB - nmeta / BPB + 1 else 0
  }

  /** How many blocks `itrunc` logs for file `i`, whose inode is in block `x`. */
  ghost function TruncLogs(bmapstart: nat, img: Image, i: nat, x: nat): nat
    requires Shaped(img) && i < |img.inodes|
  {
    |MapBlocks(bmapstart, img, i, INDIRECT + 1) + {x}|
  }

  predicate Below(owner: map<nat, Ref>, top: nat) {
    forall b | b in owner :: b < top
  }

  lemma TruncBound(nmeta: nat, bits: seq<bool>, img: Image, owner: map<nat, Ref>, top: nat, bmapstart: nat, i: nat, x: nat)
    requires Owned(nmeta, bits, img, owner) && Below(owner, top) && i < |img.inodes|
    ensures TruncLogs(bmapstart, img, i, x) <= DataMaps(nmeta, top) + 1
  {
    hide DataMaps, Numbers;
    var maps := MapBlocks(bmapstart, img, i, INDIRECT + 1);
    var all := Numbers(nmeta / BPB + bmapstart, DataMaps(nmeta, top));
    forall m | m in maps ensures m in all {
      var k :| 0 <= k < INDIRECT + 1 && Slot(img, i, k) != 0 && m == Slot(img, i, k) / BPB + bmapstart;
      assert Slot(img, i, k) in owner;
      MapInRange(nmeta, top, Slot(img, i, k));
    }
    SubsetSize(maps, all);
    UnionSize(maps, {x});
  }

  lemma MapInRange(nmeta: nat, size: nat, b: nat)
    requires nmeta <= b < size
    ensures nmeta / BPB <= b / BPB < nmeta / BPB + DataMaps(nmeta, size)
  {
  }

  // ---------------------------------------------------------------- runs

  /** How many blocks one file can have, the indirect block included. */
  const SLOTS := INDIRECT + 1

  function NoFile(): Inode {
    Inode(0, seq<nat>(NDIRECT + 1, _ => 0))
  }

  /** The file system before the first file. */
  function Fresh(nmeta: nat, size: nat, ninodes: nat): Snap {
    Snap(seq(size, b => b < nmeta), Image(seq(size, _ => Zeroed()), seq(ninodes, _ => NoFile())), {}, map[])
  }

  datatype Run = Boot(last: Snap) | Then(before: Run, i: nat, last: Snap)

  /** Files, none of them number 0, are given blocks, the lowest that are free, and
      are truncated. */
  predicate IsRun(nmeta: nat, size: nat, ninodes: nat, r: Run) {
    match r
    case Boot(s) => s == Fresh(nmeta, size, ninodes)
    case Then(q, i, t) =>
      && IsRun(nmeta, size, ninodes, q) && 0 < i < ninodes
      && Owned(nmeta, t.bits, t.img, t.owner) && Solid(t.img) && (Grew(q.last, t, i) || Shrunk(q.last, t, i))
  }

  /** No block from here on is ever given out. */
  function Top(nmeta: nat, size: nat, ninodes: nat): nat
    requires ninodes > 0
  {
    if size < nmeta + (ninodes - 1) * SLOTS then size else nmeta + (ninodes - 1) * SLOTS
  }

  function Code(f: Ref): int {
    (f.inum - 1) * SLOTS + f.slot
  }

  lemma CodeInjective(f: Ref, g: Ref)
    requires f.slot < SLOTS && g.slot < SLOTS && Code(f) == Code(g)
    ensures f == g
  {
  }

  lemma CodeInRange(f: Ref, ninodes: nat)
    requires 0 < f.inum < ninodes && f.slot < SLOTS
    ensures 0 <= Code(f) < (ninodes - 1) * SLOTS
  {
  }

  predicate NamedFiles(owner: map<nat, Ref>) {
    forall b | b in owner :: owner[b].inum > 0
  }

  /** A block with no free block below it is no further up than all files together
      have blocks. */
  lemma LowestBound(nmeta: nat, t: Snap, b: nat)
    requires Owned(nmeta, t.bits, t.img, t.owner) && NamedFiles(t.owner) && b in t.owner && UsedBelow(t.bits, b)
    ensures |t.img.inodes| > 0 && b < nmeta + (|t.img.inodes| - 1) * SLOTS
  {
    hide Slot, Code, Numbers;
    var n := |t.img.inodes|;
    forall c | nmeta <= c <= b ensures c in t.owner {
      assert t.bits[c];
    }
    forall c | nmeta <= c <= b ensures 0 <= Code(t.owner[c]) < (n - 1) * SLOTS {
      CodeInRange(t.owner[c], n);
    }
    assert (n - 1) * SLOTS > 0;
    var codes: seq<nat> := seq(b - nmeta + 1, j requires 0 <= j <= b - nmeta => Code(t.owner[nmeta + j]));
    forall j, k | 0 <= j < k < |codes| ensures codes[j] != codes[k] {
      if codes[j] == codes[k] {
        CodeInjective(t.owner[nmeta + j], t.owner[nmeta + k]);
      }
    }
    AllDifferent(codes, 0, Numbers(0, (n - 1) * SLOTS));
  }

  predicate Low(nmeta: nat, size: nat, ninodes: nat, s: Snap)
    requires ninodes > 0
  {
    && Owned(nmeta, s.bits, s.img, s.owner) && Solid(s.img) && |s.bits| == size && |s.img.inodes| == ninodes
    && NamedFiles(s.owner) && Below(s.owner, Top(nmeta, size, ninodes))
  }

  lemma GrewLow(nmeta: nat, size: nat, ninodes: nat, s: Snap, t: Snap, i: nat)
    requires 0 < i < ninodes && Low(nmeta, size, ninodes, s) && Grew(s, t, i)
    requires Owned(nmeta, t.bits, t.img, t.owner) && Solid(t.img)
    ensures Low(nmeta, size, ninodes, t)
  {
    hide Solid, SlotsOwned, UsedBelow, Top;
    assert NamedFiles(t.owner);
    forall b | b in t.owner ensures b < Top(nmeta, size, ninodes) {
      if b !in s.owner {
        LowestBound(nmeta, t, b);
        TopIs(nmeta, size, ninodes, b);
      }
    }
  }

  lemma TopIs(nmeta: nat, size: nat, ninodes: nat, b: nat)
    requires ninodes > 0 && b < size && b < nmeta + (ninodes - 1) * SLOTS
    ensures b < Top(nmeta, size, ninodes)
  {
  }

  /** In every run every block in use is below `Top`. */
  lemma {:induction false} RunLow(nmeta: nat, size: nat, ninodes: nat, r: Run)
    requires 0 < nmeta <= size <= UINT_MAX1 && ninodes > 0 && IsRun(nmeta, size, ninodes, r)
    ensures Low(nmeta, size, ninodes, r.last)
  {
    match r
    case Boot(s) => FreshLow(nmeta, size, ninodes);
    case Then(q, i, t) =>
      RunLow(nmeta, size, ninodes, q);
      if Grew(q.last, t, i) {
        GrewLow(nmeta, size, ninodes, q.last, t, i);
      } else {
        hide Solid, SlotsOwned, Top;
      }
  }

  lemma FreshLow(nmeta: nat, size: nat, ninodes: nat)
    requires 0 < nmeta <= size <= UINT_MAX1 && ninodes > 0
    ensures Low(nmeta, size, ninodes, Fresh(nmeta, size, ninodes))
  {
  }

  // ---------------------------------------------------------------- one block more

  /** The slot that the `p`th block of a growing file goes into. */
  function SlotFor(p: nat): nat {
    if p < NDIRECT then p else if p == NDIRECT then INDIRECT else p - 1
  }

  /** How many of the first `c` blocks of a file hold its bytes. */
  function DataOf(c: nat): nat {
    if c <= NDIRECT then c else c - 1
  }

  /** File `i` has its first `c` blocks, and they are full. */
  predicate HasBlocks(img: Image, i: nat, c: nat) {
    && Shaped(img) && i < |img.inodes| && c <= SLOTS && img.inodes[i].size == DataOf(c) * BSIZE
    && forall p | 0 <= p < SLOTS :: Slot(img, i, SlotFor(p)) != 0 <==> p < c
  }

  lemma SlotForAll(k: nat)
    requires k < MAXFILE
    ensures var p := if k < NDIRECT then k else k + 1; SlotFor(p) == k && p < SLOTS && (forall c: nat :: p < c <==> k < DataOf(c))
  {
  }

  /** `balloc` and the link to the new block. */
  lemma Loaded(nmeta: nat, s: Snap, i: nat, c: nat, b: nat) returns (t: Snap)
    requires Owned(nmeta, s.bits, s.img, s.owner) && HasBlocks(s.img, i, c) && c < SLOTS
    requires b < |s.bits| && !s.bits[b] && UsedBelow(s.bits, b)
    ensures BmapDone(nmeta, s, t, i, SlotFor(c), b, {0}) && Took(s, t, i, SlotFor(c)) && Grew(s, t, i)
    ensures t.bits == s.bits[b := true] && t.owner == s.owner[b := Ref(i, SlotFor(c))] && b != 0
    ensures |t.img.inodes| == |s.img.inodes|
  {
    hide BmapDone, Took, Grew, SlotsOwned, OwnersHold;
    assert Slot(s.img, i, SlotFor(c)) == 0;
    if c <= NDIRECT {
      BmapAddr(nmeta, s, i, c, b, 0);
      t := Snap(s.bits[b := true], WithAddr(WithBlock(s.img, b, Zeroed()), i, c, b), s.logged + {0, b}, s.owner[b := Ref(i, AddrSlot(c))]);
    } else {
      assert Slot(s.img, i, SlotFor(NDIRECT)) != 0;
      var e := c - NDIRECT - 1;
      BmapEntry(nmeta, s, i, e, b, 0);
      t := Snap(s.bits[b := true], WithEntry(WithBlock(s.img, b, Zeroed()), i, e, b),
                s.logged + {0, b} + {s.img.inodes[i].addrs[NDIRECT]}, s.owner[b := Ref(i, NDIRECT + e)]);
    }
  }

  predicate AllHave(img: Image, count: seq<nat>) {
    |count| == |img.inodes| && forall j | 0 <= j < |count| :: HasBlocks(img, j, count[j])
  }

  lemma AllHaveSolid(img: Image, count: seq<nat>)
    requires Shaped(img) && AllHave(img, count)
    ensures Solid(img)
  {
    hide Slot;
    forall i, k | 0 <= i < |img.inodes| && 0 <= k < MAXFILE && k * BSIZE < img.inodes[i].size ensures Slot(img, i, k) != 0 {
      assert HasBlocks(img, i, count[i]);
      SlotForAll(k);
    }
    forall i | 0 <= i < |img.inodes| ensures img.inodes[i].size <= MAXFILE * BSIZE {
      assert HasBlocks(img, i, count[i]);
    }
  }

  /** The slots after one more block and a larger size. */
  lemma MoreBlocks(nmeta: nat, s: Snap, m: Snap, i: nat, count: seq<nat>, b: nat)
    requires i < |s.img.inodes| && AllHave(s.img, count) && count[i] < SLOTS
    requires BmapDone(nmeta, s, m, i, SlotFor(count[i]), b, {0}) && Took(s, m, i, SlotFor(count[i])) && b != 0
    ensures var img := WithSize(m.img, i, DataOf(count[i] + 1) * BSIZE);
            AllHave(img, count[i := count[i] + 1]) && SameSlots(m.img, img)
  {
    hide Owned, Accounted, FileSystem.Logs, FreeCount, Full;
    var img, c := WithSize(m.img, i, DataOf(count[i] + 1) * BSIZE), count[i];
    assert SameSlots(m.img, img);
    hide Slot;
    var more := count[i := c + 1];
    forall j | 0 <= j < |more| ensures HasBlocks(img, j, more[j]) {
      assert HasBlocks(s.img, j, count[j]);
      if j != i {
        forall p | 0 <= p < SLOTS ensures Slot(img, j, SlotFor(p)) == Slot(s.img, j, SlotFor(p)) {
        }
      } else {
        forall p | 0 <= p < SLOTS && p != c ensures Slot(img, i, SlotFor(p)) == Slot(s.img, i, SlotFor(p)) {
        }
      }
    }
  }

  /** A file grows by one block, the lowest that is free. */
  lemma Longer(nmeta: nat, s: Snap, i: nat, count: seq<nat>, b: nat) returns (t: Snap)
    requires Owned(nmeta, s.bits, s.img, s.owner) && i < |s.img.inodes| && AllHave(s.img, count) && count[i] < SLOTS
    requires b < |s.bits| && !s.bits[b] && UsedBelow(s.bits, b)
    ensures Owned(nmeta, t.bits, t.img, t.owner) && Solid(t.img) && Grew(s, t, i) && AllHave(t.img, count[i := count[i] + 1])
    ensures t.bits == s.bits[b := true] && b in t.owner && t.owner[b].inum == i
  {
    hide Took, Grew, SlotsOwned, OwnersHold, Mapped, Accounted, FileSystem.Logs, Solid, AllHave, SameSlots;
    hide HasBlocks;
    HaveOne(s.img, count, i);
    var m := Loaded(nmeta, s, i, count[i], b);
    MoreBlocks(nmeta, s, m, i, count, b);
    t := m.(img := WithSize(m.img, i, DataOf(count[i] + 1) * BSIZE));
    SameSlotsOwned(nmeta, m.bits, m.img, t.img, m.owner);
    AllHaveSolid(t.img, count[i := count[i] + 1]);
    GrewSame(s, m, t, i);
  }

  lemma HaveOne(img: Image, count: seq<nat>, i: nat)
    requires AllHave(img, count) && i < |img.inodes|
    ensures |count| == |img.inodes| && HasBlocks(img, i, count[i])
  {
  }

  // ---------------------------------------------------------------- a file spread over the disk

  /** The first data block whose bit is in the `j`th bitmap block of data. */
  function First(nmeta: nat, j: nat): nat {
    if j == 0 then nmeta else (nmeta / BPB + j) * BPB
  }

  function Rank(nmeta: nat, b: nat): int {
    b / BPB - nmeta / BPB
  }

  lemma FirstRank(nmeta: nat, j: nat)
    ensures Rank(nmeta, First(nmeta, j)) == j && nmeta <= First(nmeta, j)
  {
  }

  lemma FirstFits(nmeta: nat, size: nat, j: nat)
    requires j < DataMaps(nmeta, size)
    ensures First(nmeta, j) < size
  {
  }

  /** How many blocks file `i` has: file 1 has `a`, and the files from 2 on have `m`
      between them, each full before the next has any. */
  function Share(a: nat, m: nat, i: nat): nat {
    if i == 0 then 0 else if i == 1 then a
    else if m <= SLOTS * (i - 2) then 0 else if m >= SLOTS * (i - 1) then SLOTS else m - SLOTS * (i - 2)
  }

  function Shares(ninodes: nat, a: nat, m: nat): seq<nat> {
    seq(ninodes, i requires 0 <= i => Share(a, m, i))
  }

  /** The file, other than 1, that is growing. */
  function Next(m: nat): nat {
    2 + m / SLOTS
  }

  lemma SharesMore(ninodes: nat, a: nat, m: nat)
    requires 2 <= ninodes
    ensures Shares(ninodes, a + 1, m) == Shares(ninodes, a, m)[1 := a + 1]
    ensures m < (ninodes - 2) * SLOTS ==>
              && Next(m) < ninodes && Share(a, m, Next(m)) < SLOTS
              && Shares(ninodes, a, m + 1) == Shares(ninodes, a, m)[Next(m) := Share(a, m, Next(m)) + 1]
  {
    if m < (ninodes - 2) * SLOTS {
      var q := m / SLOTS;
      assert SLOTS * q <= m < SLOTS * (q + 1);
      forall i: nat | i < ninodes ensures Share(a, m + 1, i) == if i == q + 2 then Share(a, m, i) + 1 else Share(a, m, i) {
        ShareMore(a, m, q, i);
      }
    }
  }

  lemma ShareMore(a: nat, m: nat, q: nat, i: nat)
    requires SLOTS * q <= m < SLOTS * (q + 1)
    ensures Share(a, m + 1, i) == if i == q + 2 then Share(a, m, i) + 1 else Share(a, m, i)
  {
    if i >= 2 {
      if i - 2 < q {
        assert SLOTS * (i - 1) <= SLOTS * q;
      } else if i - 2 > q {
        assert SLOTS * (i - 2) >= SLOTS * (q + 1);
      }
    }
  }

  /** The first `n` data blocks are in use; file 1 has the first of each bitmap
      block, and others only where the other files are full. */
  predicate Packed(nmeta: nat, ninodes: nat, s: Snap, a: nat, m: nat) {
    && (forall b | 0 <= b < |s.bits| :: s.bits[b] <==> b < nmeta + a + m)
    && |s.img.inodes| == ninodes && AllHave(s.img, Shares(ninodes, a, m))
    && m <= (ninodes - 2) * SLOTS && (m == (ninodes - 2) * SLOTS || a <= Firsts(nmeta, a + m))
    && (forall j | 0 <= j < Firsts(nmeta, a + m) :: OfOne(s.owner, First(nmeta, j)))
  }

  /** How many bitmap blocks the first `n` data blocks have bits in. */
  function Firsts(nmeta: nat, n: nat): int {
    if n == 0 then 0 else Rank(nmeta, nmeta + n - 1) + 1
  }

  predicate OfOne(owner: map<nat, Ref>, b: nat) {
    b in owner && owner[b].inum == 1
  }

  lemma FirstsMore(nmeta: nat, n: nat)
    ensures var j := Rank(nmeta, nmeta + n);
            && 0 <= j && 0 <= Firsts(nmeta, n)
            && Firsts(nmeta, n + 1) == (if First(nmeta, j) == nmeta + n then Firsts(nmeta, n) + 1 else Firsts(nmeta, n))
            && (First(nmeta, j) == nmeta + n ==> j == Firsts(nmeta, n))
  {
  }

  lemma Pack(nmeta: nat, size: nat, ninodes: nat, r: Run, a: nat, m: nat) returns (q: Run, a': nat, m': nat)
    requires 0 < nmeta && 2 <= ninodes && IsRun(nmeta, size, ninodes, r) && Low(nmeta, size, ninodes, r.last)
    requires Packed(nmeta, ninodes, r.last, a, m)
    requires nmeta + a + m < Top(nmeta, size, ninodes) && Firsts(nmeta, a + m) <= MAXOPBLOCKS
    ensures IsRun(nmeta, size, ninodes, q) && Packed(nmeta, ninodes, q.last, a', m') && a' + m' == a + m + 1
  {
    hide Grew, Solid, SlotsOwned, OwnersHold, AllHave, Firsts, First, Rank, Share, Shares, Next;
    var s, b := r.last, nmeta + a + m;
    SharesMore(ninodes, a, m);
    FirstsMore(nmeta, a + m);
    var special := First(nmeta, Rank(nmeta, b)) == b;
    var i := 1;
    a', m' := a + 1, m;
    if !special && m < (ninodes - 2) * SLOTS {
      i, a', m' := Next(m), a, m + 1;
      NextNamed(m);
    }
    ShareAt(ninodes, a, m, i);
    var t := Longer(nmeta, s, i, Shares(ninodes, a, m), b);
    q := Then(r, i, t);
    assert Owned(nmeta, t.bits, t.img, t.owner);
    KeptOne(s, t, i);
    LongerSize(s, t, i);
  }

  lemma NextNamed(m: nat)
    ensures Next(m) >= 2
  {
  }

  lemma ShareAt(ninodes: nat, a: nat, m: nat, i: nat)
    requires i < ninodes
    ensures |Shares(ninodes, a, m)| == ninodes && Shares(ninodes, a, m)[i] == Share(a, m, i) && Share(a, m, 1) == a
  {
  }

  lemma KeptOne(s: Snap, t: Snap, i: nat)
    requires Grew(s, t, i)
    ensures forall b | OfOne(s.owner, b) :: OfOne(t.owner, b)
  {
  }

  lemma LongerSize(s: Snap, t: Snap, i: nat)
    requires Grew(s, t, i)
    ensures |t.img.inodes| == |s.img.inodes|
  {
  }

  lemma {:induction false} PackAll(nmeta: nat, size: nat, ninodes: nat, n: nat) returns (r: Run, a: nat, m: nat)
    requires 0 < nmeta <= size <= UINT_MAX1 && 2 <= ninodes
    requires n == 0 || (nmeta + n <= Top(nmeta, size, ninodes) && Firsts(nmeta, n - 1) <= MAXOPBLOCKS)
    ensures IsRun(nmeta, size, ninodes, r) && Packed(nmeta, ninodes, r.last, a, m) && a + m == n
  {
    if n == 0 {
      r, a, m := Boot(Fresh(nmeta, size, ninodes)), 0, 0;
      FreshPacked(nmeta, size, ninodes);
    } else {
      hide IsRun, Packed, Low, Top;
      FirstsMono(nmeta, n);
      r, a, m := PackAll(nmeta, size, ninodes, n - 1);
      RunLow(nmeta, size, ninodes, r);
      r, a, m := Pack(nmeta, size, ninodes, r, a, m);
    }
  }

  lemma FirstsMono(nmeta: nat, n: nat)
    requires n > 0
    ensures n > 1 ==> Firsts(nmeta, n - 2) <= Firsts(nmeta, n - 1)
  {
  }

  lemma FreshPacked(nmeta: nat, size: nat, ninodes: nat)
    requires 0 < nmeta <= size && 2 <= ninodes
    ensures Packed(nmeta, ninodes, Fresh(nmeta, size, ninodes), 0, 0)
  {
    var s := Fresh(nmeta, size, ninodes);
    forall i | 0 <= i < ninodes ensures HasBlocks(s.img, i, 0) {
    }
    assert forall i: nat | i < ninodes :: Share(0, 0, i) == 0;
  }

  /** A file with the first block of each of MAXOPBLOCKS bitmap blocks. */
  lemma SpreadLogs(nmeta: nat, s: Snap, bmapstart: nat, x: nat)
    requires Owned(nmeta, s.bits, s.img, s.owner) && 1 < |s.img.inodes| && x < bmapstart
    requires forall j | 0 <= j < MAXOPBLOCKS :: OfOne(s.owner, First(nmeta, j))
    ensures TruncLogs(bmapstart, s.img, 1, x) >= MAXOPBLOCKS + 1
  {
    hide Slot, Numbers, First;
    var maps := MapBlocks(bmapstart, s.img, 1, INDIRECT + 1);
    var ten := Numbers(nmeta / BPB + bmapstart, MAXOPBLOCKS);
    forall m | m in ten ensures m in maps {
      var j := m - bmapstart - nmeta / BPB;
      FirstRank(nmeta, j);
      assert OfOne(s.owner, First(nmeta, j));
      assert Slot(s.img, 1, s.owner[First(nmeta, j)].slot) / BPB + bmapstart == m;
    }
    assert x !in ten;
    SubsetSize(ten + {x}, maps + {x});
  }

  /** With MAXOPBLOCKS bitmap blocks in reach some run spreads file 1 over them. */
  lemma SpreadRun(nmeta: nat, size: nat, ninodes: nat, bmapstart: nat, x: nat) returns (r: Run)
    requires 0 < nmeta <= size <= UINT_MAX1 && 0 < ninodes && MAXOPBLOCKS <= DataMaps(nmeta, Top(nmeta, size, ninodes)) && x < bmapstart
    ensures IsRun(nmeta, size, ninodes, r) && 1 < ninodes == |r.last.img.inodes| && Shaped(r.last.img)
    ensures TruncLogs(bmapstart, r.last.img, 1, x) >= MAXOPBLOCKS + 1
  {
    hide IsRun, TruncLogs, DataMaps;
    var last := First(nmeta, MAXOPBLOCKS - 1);
    FirstFits(nmeta, Top(nmeta, size, ninodes), MAXOPBLOCKS - 1);
    FirstRank(nmeta, MAXOPBLOCKS - 1);
    assert ninodes > 1;
    hide First, Top;
    var n := last - nmeta + 1;
    FirstsTo(nmeta, n);
    var a, m;
    r, a, m := PackAll(nmeta, size, ninodes, n);
    RunLow(nmeta, size, ninodes, r);
    SpreadLogs(nmeta, r.last, bmapstart, x);
  }

  lemma FirstsTo(nmeta: nat, n: nat)
    requires n > 0 && nmeta + n - 1 == First(nmeta, MAXOPBLOCKS - 1)
    ensures Firsts(nmeta, n) == MAXOPBLOCKS && Firsts(nmeta, n - 1) <= MAXOPBLOCKS
  {
    FirstRank(nmeta, MAXOPBLOCKS - 1);
    FirstsMore(nmeta, n - 1);
  }

  // ---------------------------------------------------------------- exactly when

  predicate Fits(img: Image, inodestart: nat, bmapstart: nat, i: nat) {
    Shaped(img) && i < |img.inodes| && |MapBlocks(bmapstart, img, i, INDIRECT + 1) + {i / IPB + inodestart}| <= MAXOPBLOCKS
  }

  /** In every run every file can be truncated within one reservation. */
  ghost predicate AlwaysFits(nmeta: nat, size: nat, ninodes: nat, inodestart: nat, bmapstart: nat) {
    forall r, i | IsRun(nmeta, size, ninodes, r) && 0 < i < ninodes :: Fits(r.last.img, inodestart, bmapstart, i)
  }

  /** `itrunc` stays within the MAXOPBLOCKS blocks that `begin_op` reserved, for
      every file in every state that lowest-first allocation leads to, if and only
      if the bits of all blocks that are ever given out are in fewer than
      MAXOPBLOCKS bitmap blocks.  The inode blocks come before the bitmap. */
  lemma TruncFitsIff(nmeta: nat, size: nat, ninodes: nat, inodestart: nat, bmapstart: nat)
    requires 0 < nmeta <= size <= UINT_MAX1 && 0 < ninodes && inodestart + ninodes / IPB < bmapstart
    ensures AlwaysFits(nmeta, size, ninodes, inodestart, bmapstart) <==> DataMaps(nmeta, Top(nmeta, size, ninodes)) < MAXOPBLOCKS
  {
    hide IsRun, DataMaps, MapBlocks, Top;
    if DataMaps(nmeta, Top(nmeta, size, ninodes)) < MAXOPBLOCKS {
      forall r, i | IsRun(nmeta, size, ninodes, r) && 0 < i < ninodes ensures Fits(r.last.img, inodestart, bmapstart, i) {
        RunLow(nmeta, size, ninodes, r);
        TruncBound(nmeta, r.last.bits, r.last.img, r.last.owner, Top(nmeta, size, ninodes), bmapstart, i, i / IPB + inodestart);
      }
    } else {
      var r := SpreadRun(nmeta, size, ninodes, bmapstart, 1 / IPB + inodestart);
      assert !Fits(r.last.img, inodestart, bmapstart, 1);
    }
  }

  /** Where mkfs puts the inodes, the free map and the data, after the boot block,
      the superblock and the log. */
  const INODESTART := 2 + LOGSIZE

  function BmapStart(ninodes: nat): nat {
    INODESTART + ninodes / IPB + 1
  }

  function DataStart(size: nat, ninodes: nat): nat {
    BmapStart(ninodes) + size / BPB + 1
  }

  ghost predicate MkfsFits(size: nat, ninodes: nat) {
    AlwaysFits(DataStart(size, ninodes), size, ninodes, INODESTART, BmapStart(ninodes))
  }

  /** With the 200 inodes mkfs makes a truncation always fits, on all three sizes
      of disk the source is built for.  On the largest it would not with 275 or
      more, of the 65536 that a directory entry can name. */
  lemma BuiltSizes(ninodes: nat)
    requires 0 < ninodes <= 0x1_0000
    ensures MkfsFits(2000, 200) && MkfsFits(10000, 200) && MkfsFits(200000, 200)
    ensures MkfsFits(200000, ninodes) <==> ninodes < 275
  {
    hide AlwaysFits, DataMaps, Top;
    TruncFitsIff(DataStart(2000, 200), 2000, 200, INODESTART, BmapStart(200));
    TruncFitsIff(DataStart(10000, 200), 10000, 200, INODESTART, BmapStart(200));
    TruncFitsIff(DataStart(200000, 200), 200000, 200, INODESTART, BmapStart(200));
    TruncFitsIff(DataStart(200000, ninodes), 200000, ninodes, INODESTART, BmapStart(ninodes));
    FewMaps(DataStart(2000, 200), 2000, 200);
    FewMaps(DataStart(10000, 200), 10000, 200);
    FewMaps(DataStart(200000, 200), 200000, 200);
    FewMaps(DataStart(200000, ninodes), 200000, ninodes);
  }

  lemma FewMaps(nmeta: nat, size: nat, ninodes: nat)
    requires 0 < ninodes && nmeta < BPB && nmeta < size
    ensures DataMaps(nmeta, Top(nmeta, size, ninodes)) < MAXOPBLOCKS <==>
              size <= (MAXOPBLOCKS - 1) * BPB || nmeta + (ninodes - 1) * SLOTS <= (MAXOPBLOCKS - 1) * BPB
  {
  }
}
