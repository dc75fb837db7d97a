/** Where the parts of a file system are on its disk (kernel/fs.h): inodes,
    sixteen to a block, the free map, one bit a block, and the data blocks. */
module OnDisk {
  import opened Bytes
  import opened FileSystem
  import opened Inodes
  import opened Log
  import opened Space
  import WrappedRing

  datatype Places = Places(nmeta: nat, inodestart: nat, bmapstart: nat) {
    /** The order in which mkfs lays out the disk. */
    predicate Apart(l: Layout, size: nat, ninodes: nat) {
      l.start + l.size <= inodestart <= inodestart + ninodes / IPB < bmapstart <= bmapstart + size / BPB < nmeta <= size
    }
  }

  /** The bit of weight `2^k` of a byte is found by dividing by this. */
  function Power(k: nat): nat
    requires k < 8
  {
    [1, 2, 4, 8, 16, 32, 64, 128][k]
  }

  predicate BitOf(blk: Block, k: nat)
    requires k < BPB
  {
    blk.data[k / 8] / Power(k % 8) % 2 == 1
  }

  /** The words of a `struct dinode`: two of types and counts, the size, the addresses. */
  const DWORDS := 16

  function InodeOf(blk: Block, k: nat): Inode
    requires k < IPB
  {
    Inode(Word(blk, DWORDS * k + 2), seq<nat>(NDIRECT + 1, a requires 0 <= a <= NDIRECT => Word(blk, DWORDS * k + 3 + a)))
  }

  /** Disk block `b` may hold `blk` in state `s`. */
  predicate BlockOk(pl: Places, s: Snap, b: nat, blk: Block) {
    && (pl.nmeta <= b < |s.img.blocks| ==> blk == s.img.blocks[b])
    && (forall c | 0 <= c < |s.bits| && c / BPB + pl.bmapstart == b :: BitOf(blk, c % BPB) == s.bits[c])
    && (forall i | 0 <= i < |s.img.inodes| && i / IPB + pl.inodestart == b :: InodeOf(blk, i % IPB) == s.img.inodes[i])
  }

  /** The disk holds the state, outside the log. */
  predicate Holds(l: Layout, pl: Places, s: Snap, d: Disk) {
    |d| == |s.img.blocks| && forall b | 0 <= b < |d| && !l.InLog(b) :: BlockOk(pl, s, b, d[b])
  }

  lemma SameHolds(l: Layout, pl: Places, s: Snap, d: Disk, e: Disk)
    requires Holds(l, pl, s, d) && SameHome(l, d, e)
    ensures Holds(l, pl, s, e)
  {
  }

  // ---------------------------------------------------------------- reading the disk

  predicate Readable(pl: Places, d: Disk, ninodes: nat) {
    pl.inodestart + ninodes / IPB < |d|
  }

  /** The blocks and inodes as they are read from the disk. */
  function DiskImage(pl: Places, d: Disk, ninodes: nat): Image
    requires Readable(pl, d, ninodes)
  {
    Image(d, seq(ninodes, i requires 0 <= i < ninodes => InodeOf(d[i / IPB + pl.inodestart], i % IPB)))
  }

  lemma InodeBlock(i: nat, ninodes: nat)
    requires i < ninodes
    ensures i / IPB <= ninodes / IPB
  {
  }

  lemma DiskInodes(l: Layout, pl: Places, s: Snap, d: Disk)
    requires Holds(l, pl, s, d) && pl.Apart(l, |d|, |s.img.inodes|)
    ensures Readable(pl, d, |s.img.inodes|) && DiskImage(pl, d, |s.img.inodes|).inodes == s.img.inodes
  {
    hide BlockOk;
    forall i | 0 <= i < |s.img.inodes| ensures InodeOf(d[i / IPB + pl.inodestart], i % IPB) == s.img.inodes[i] {
      InodeBlock(i, |s.img.inodes|);
      InodeThere(pl, s, i, d[i / IPB + pl.inodestart]);
    }
  }

  lemma InodeThere(pl: Places, s: Snap, i: nat, blk: Block)
    requires BlockOk(pl, s, i / IPB + pl.inodestart, blk) && i < |s.img.inodes|
    ensures InodeOf(blk, i % IPB) == s.img.inodes[i]
  {
  }

  /** Every file, read from a disk that holds the state, has its contents in that state. */
  lemma SameFiles(l: Layout, pl: Places, s: Snap, d: Disk, i: nat)
    requires Holds(l, pl, s, d) && pl.Apart(l, |d|, |s.img.inodes|)
    requires Owned(pl.nmeta, s.bits, s.img, s.owner) && Solid(s.img) && i < |s.img.inodes|
    ensures Readable(pl, d, |s.img.inodes|)
    ensures var img := DiskImage(pl, d, |s.img.inodes|);
            |img.inodes| == |s.img.inodes| && Shaped(img) && SizesFit(img) && Content(img, i) == Content(s.img, i)
  {
    hide InodeOf;
    DiskInodes(l, pl, s, d);
    var img := DiskImage(pl, d, |s.img.inodes|);
    forall b | pl.nmeta <= b < |d| ensures d[b] == s.img.blocks[b] {
      assert BlockOk(pl, s, b, d[b]);
    }
    hide BlockOk, DiskImage;
    forall o | 0 <= o < s.img.inodes[i].size ensures ByteAt(img, i, o) == ByteAt(s.img, i, o) {
      SameByte(pl, s, img, i, o);
    }
  }

  lemma SameByte(pl: Places, s: Snap, img: Image, i: nat, o: nat)
    requires Owned(pl.nmeta, s.bits, s.img, s.owner) && i < |s.img.inodes| && o < MAXFILE * BSIZE
    requires img.inodes == s.img.inodes && |img.blocks| == |s.img.blocks|
    requires forall b | pl.nmeta <= b < |img.blocks| :: img.blocks[b] == s.img.blocks[b]
    ensures ByteAt(img, i, o) == ByteAt(s.img, i, o)
  {
    var k := o / BSIZE;
    assert Slot(s.img, i, INDIRECT) != 0 ==> Slot(s.img, i, INDIRECT) in s.owner;
    assert Slot(s.img, i, k) != 0 ==> Slot(s.img, i, k) in s.owner;
  }

  // ---------------------------------------------------------------- every state has a disk

  function BitValue(bits: seq<bool>, b: nat): nat {
    if b < |bits| && bits[b] then 1 else 0
  }

  /** The byte of the free map that holds the bits from `b` on. */
  function MapByte(bits: seq<bool>, b: nat): byte {
    BitValue(bits, b) + 2 * BitValue(bits, b + 1) + 4 * BitValue(bits, b + 2) + 8 * BitValue(bits, b + 3)
    + 16 * BitValue(bits, b + 4) + 32 * BitValue(bits, b + 5) + 64 * BitValue(bits, b + 6) + 128 * BitValue(bits, b + 7)
  }

  lemma MapByteBit(bits: seq<bool>, b: nat, k: nat)
    requires k < 8
    ensures MapByte(bits, b) / Power(k) % 2 == BitValue(bits, b + k)
  {
    EightBits(BitValue(bits, b), BitValue(bits, b + 1), BitValue(bits, b + 2), BitValue(bits, b + 3),
              BitValue(bits, b + 4), BitValue(bits, b + 5), BitValue(bits, b + 6), BitValue(bits, b + 7), k);
  }

  lemma EightBits(a: nat, b: nat, c: nat, d: nat, e: nat, f: nat, g: nat, h: nat, k: nat)
    requires k < 8 && a < 2 && b < 2 && c < 2 && d < 2 && e < 2 && f < 2 && g < 2 && h < 2
    ensures (a + 2 * b + 4 * c + 8 * d + 16 * e + 32 * f + 64 * g + 128 * h) / Power(k) % 2 == [a, b, c, d, e, f, g, h][k]
  {
    var x := a + 2 * b + 4 * c + 8 * d + 16 * e + 32 * f + 64 * g + 128 * h;
    if k == 0 {
      Middle(x, 0, a, b + 2 * c + 4 * d + 8 * e + 16 * f + 32 * g + 64 * h, 1);
    } else if k == 1 {
      Middle(x, a, b, c + 2 * d + 4 * e + 8 * f + 16 * g + 32 * h, 2);
    } else if k == 2 {
      Middle(x, a + 2 * b, c, d + 2 * e + 4 * f + 8 * g + 16 * h, 4);
    } else if k == 3 {
      Middle(x, a + 2 * b + 4 * c, d, e + 2 * f + 4 * g + 8 * h, 8);
    } else if k == 4 {
      Middle(x, a + 2 * b + 4 * c + 8 * d, e, f + 2 * g + 4 * h, 16);
    } else if k == 5 {
      Middle(x, a + 2 * b + 4 * c + 8 * d + 16 * e, f, g + 2 * h, 32);
    } else if k == 6 {
      Middle(x, a + 2 * b + 4 * c + 8 * d + 16 * e + 32 * f, g, h, 64);
    } else {
      Middle(x, a + 2 * b + 4 * c + 8 * d + 16 * e + 32 * f + 64 * g, h, 0, 128);
    }
  }

  lemma Middle(x: nat, lo: nat, bit: nat, hi: nat, p: nat)
    requires x == lo + p * (bit + 2 * hi) && lo < p && bit < 2
    ensures x / p % 2 == bit
  {
    WrappedRing.Remainder(x, bit + 2 * hi, lo, p);
  }

  function MapBlock(bits: seq<bool>, m: nat): Block {
    Block(seq(BSIZE, j requires 0 <= j => MapByte(bits, m * BPB + 8 * j)))
  }

  lemma MapBlockBit(bits: seq<bool>, c: nat)
    requires c < |bits|
    ensures BitOf(MapBlock(bits, c / BPB), c % BPB) == bits[c]
  {
    var k := c % BPB;
    MapByteBit(bits, c / BPB * BPB + 8 * (k / 8), k % 8);
    assert c / BPB * BPB + 8 * (k / 8) + k % 8 == c;
  }

  function WordByte(w: nat, j: nat): byte
    requires w < UINT_MAX1 && j < 4
  {
    SplitWord(w);
    [w % 256, w / 0x100 % 256, w / 0x1_0000 % 256, w / 0x100_0000][j]
  }

  predicate AreWords(ws: seq<nat>) {
    |ws| == WORDS && forall w | 0 <= w < |ws| :: ws[w] < UINT_MAX1
  }

  function FromWords(ws: seq<nat>): Block
    requires AreWords(ws)
  {
    Block(seq(BSIZE, j requires 0 <= j < BSIZE => WordByte(ws[j / 4], j % 4)))
  }

  lemma FromWordsWord(ws: seq<nat>, w: nat)
    requires AreWords(ws) && w < WORDS
    ensures Word(FromWords(ws), w) == ws[w]
  {
    FromWordsByte(ws, w, 0);
    FromWordsByte(ws, w, 1);
    FromWordsByte(ws, w, 2);
    FromWordsByte(ws, w, 3);
    SplitWord(ws[w]);
    hide FromWords;
  }

  lemma FromWordsByte(ws: seq<nat>, w: nat, j: nat)
    requires AreWords(ws) && w < WORDS && j < 4
    ensures FromWords(ws).data[4 * w + j] == WordByte(ws[w], j)
  {
    assert (4 * w + j) / 4 == w && (4 * w + j) % 4 == j;
  }

  function DinodeWord(inodes: seq<Inode>, i: nat, a: nat): nat {
    if i >= |inodes| || a < 2 then 0
    else if a == 2 then inodes[i].size
    else if a - 3 < |inodes[i].addrs| then inodes[i].addrs[a - 3] else 0
  }

  function DinodeWords(inodes: seq<Inode>, m: nat): seq<nat> {
    seq(WORDS, w requires 0 <= w => DinodeWord(inodes, m * IPB + w / DWORDS, w % DWORDS))
  }

  predicate Small(inode: Inode) {
    |inode.addrs| == NDIRECT + 1 && inode.size < UINT_MAX1 && forall a | 0 <= a < |inode.addrs| :: inode.addrs[a] < UINT_MAX1
  }

  predicate AllSmall(inodes: seq<Inode>) {
    forall i | 0 <= i < |inodes| :: Small(inodes[i])
  }

  lemma SmallWords(inodes: seq<Inode>, m: nat)
    requires AllSmall(inodes)
    ensures AreWords(DinodeWords(inodes, m))
  {
    var ws := DinodeWords(inodes, m);
    forall w | 0 <= w < |ws| ensures ws[w] < UINT_MAX1 {
      var i := m * IPB + w / DWORDS;
      assert i < |inodes| ==> Small(inodes[i]);
    }
  }

  function InodeBlockOf(inodes: seq<Inode>, m: nat): Block
    requires AllSmall(inodes)
  {
    SmallWords(inodes, m);
    FromWords(DinodeWords(inodes, m))
  }

  lemma InodeBlockInode(inodes: seq<Inode>, i: nat)
    requires AllSmall(inodes) && i < |inodes|
    ensures InodeOf(InodeBlockOf(inodes, i / IPB), i % IPB) == inodes[i]
  {
    hide InodeBlockOf, Word;
    assert Small(inodes[i]);
    var blk := InodeBlockOf(inodes, i / IPB);
    DinodeAt(inodes, i, 2);
    forall a | 0 <= a <= NDIRECT ensures Word(blk, DWORDS * (i % IPB) + 3 + a) == inodes[i].addrs[a] {
      DinodeAt(inodes, i, 3 + a);
    }
    assert InodeOf(blk, i % IPB).addrs == inodes[i].addrs;
  }

  lemma DinodeAt(inodes: seq<Inode>, i: nat, a: nat)
    requires AllSmall(inodes) && i < |inodes| && a < DWORDS
    ensures Word(InodeBlockOf(inodes, i / IPB), DWORDS * (i % IPB) + a) == DinodeWord(inodes, i, a)
  {
    hide Word, FromWords, DinodeWord;
    SmallWords(inodes, i / IPB);
    FromWordsWord(DinodeWords(inodes, i / IPB), DWORDS * (i % IPB) + a);
    WordPlace(i % IPB, a);
  }

  lemma WordPlace(k: nat, a: nat)
    requires a < DWORDS
    ensures (DWORDS * k + a) / DWORDS == k && (DWORDS * k + a) % DWORDS == a
  {
  }

  lemma OwnedSmall(nmeta: nat, s: Snap)
    requires Owned(nmeta, s.bits, s.img, s.owner) && Solid(s.img)
    ensures AllSmall(s.img.inodes)
  {
    forall i | 0 <= i < |s.img.inodes| ensures Small(s.img.inodes[i]) {
      forall a | 0 <= a <= NDIRECT ensures s.img.inodes[i].addrs[a] < UINT_MAX1 {
        assert Slot(s.img, i, AddrSlot(a)) == s.img.inodes[i].addrs[a];
        assert s.img.inodes[i].addrs[a] != 0 ==> s.img.inodes[i].addrs[a] in s.owner;
      }
    }
  }

  /** The disk that holds a state, laid out as mkfs does. */
  function Encoded(pl: Places, s: Snap): Disk
    requires AllSmall(s.img.inodes) && pl.nmeta <= |s.img.blocks|
  {
    seq(|s.img.blocks|, b requires 0 <= b < |s.img.blocks| =>
      if b < pl.inodestart then Zeroed()
      else if b < pl.bmapstart then InodeBlockOf(s.img.inodes, b - pl.inodestart)
      else if b < pl.nmeta then MapBlock(s.bits, b - pl.bmapstart)
      else s.img.blocks[b])
  }

  /** Every sound state is held by some disk. */
  lemma EncodedHolds(l: Layout, pl: Places, s: Snap)
    requires Owned(pl.nmeta, s.bits, s.img, s.owner) && Solid(s.img)
    requires pl.Apart(l, |s.img.blocks|, |s.img.inodes|)
    ensures AllSmall(s.img.inodes) && Holds(l, pl, s, Encoded(pl, s))
  {
    OwnedSmall(pl.nmeta, s);
    forall b | 0 <= b < |s.img.blocks| ensures BlockOk(pl, s, b, Encoded(pl, s)[b]) {
      EncodedBlock(l, pl, s, b);
    }
  }

  lemma EncodedBlock(l: Layout, pl: Places, s: Snap, b: nat)
    requires AllSmall(s.img.inodes) && |s.bits| == |s.img.blocks| && b < |s.img.blocks|
    requires pl.Apart(l, |s.img.blocks|, |s.img.inodes|)
    ensures BlockOk(pl, s, b, Encoded(pl, s)[b])
  {
    hide BitOf, InodeOf, MapBlock, InodeBlockOf;
    forall c | 0 <= c < |s.bits| && c / BPB + pl.bmapstart == b ensures BitOf(Encoded(pl, s)[b], c % BPB) == s.bits[c] {
      MapBlockBit(s.bits, c);
    }
    forall i | 0 <= i < |s.img.inodes| && i / IPB + pl.inodestart == b
      ensures InodeOf(Encoded(pl, s)[b], i % IPB) == s.img.inodes[i]
    {
      InodeBlockInode(s.img.inodes, i);
    }
  }
}
