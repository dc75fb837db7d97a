/** How inodes name blocks (kernel/fs.c): twelve direct addresses and one
    indirect block of 256 more, and who owns each block of the disk. */
module Inodes {
  import opened Bytes

  const NDIRECT := 12
  const NINDIRECT := 256
  const MAXFILE := NDIRECT + NINDIRECT

  /** Slot numbers 0 .. MAXFILE - 1 are the blocks of a file; this one is the
      indirect block itself. */
  const INDIRECT := MAXFILE

  datatype Inode = Inode(size: nat, addrs: seq<nat>)

  /** The disk blocks as `bread` returns them, and the in-memory inodes. */
  datatype Image = Image(blocks: seq<Block>, inodes: seq<Inode>)

  datatype Ref = Ref(inum: nat, slot: nat)

  predicate Shaped(img: Image) {
    forall i | 0 <= i < |img.inodes| ::
      |img.inodes[i].addrs| == NDIRECT + 1 && img.inodes[i].addrs[NDIRECT] < |img.blocks|
  }

  /** The block number in slot `k` of inode `i`; 0 is none. */
  function Slot(img: Image, i: nat, k: nat): nat
    requires Shaped(img) && i < |img.inodes| && k <= INDIRECT
  {
    var addrs := img.inodes[i].addrs;
    if k < NDIRECT then addrs[k]
    else if k == INDIRECT then addrs[NDIRECT]
    else if addrs[NDIRECT] == 0 then 0
    else Word(img.blocks[addrs[NDIRECT]], k - NDIRECT)
  }

  /** Every used slot holds a block that belongs to that slot and no other. */
  predicate SlotsOwned(img: Image, owner: map<nat, Ref>)
    requires Shaped(img)
  {
    forall i, k | 0 <= i < |img.inodes| && 0 <= k <= INDIRECT && Slot(img, i, k) != 0 ::
      Slot(img, i, k) in owner && owner[Slot(img, i, k)] == Ref(i, k)
  }

  predicate OwnersHold(nmeta: nat, bits: seq<bool>, img: Image, owner: map<nat, Ref>)
    requires Shaped(img)
  {
    forall b | b in owner ::
      && 0 < nmeta <= b < |bits| && bits[b]
      && owner[b].inum < |img.inodes| && owner[b].slot <= INDIRECT
      && Slot(img, owner[b].inum, owner[b].slot) == b
  }

  /** The free map and the inodes agree: a data block is marked used exactly
      when it is in `owner`, metadata is always marked used. */
  predicate Owned(nmeta: nat, bits: seq<bool>, img: Image, owner: map<nat, Ref>) {
    && Shaped(img)
    && 0 < nmeta <= |bits| == |img.blocks| <= UINT_MAX1
    && SlotsOwned(img, owner)
    && OwnersHold(nmeta, bits, img, owner)
    && (forall b | 0 <= b < nmeta :: bits[b])
    && (forall b | nmeta <= b < |bits| && bits[b] :: b in owner)
  }

  /** The two images name the same blocks, except that slot `k` of inode `i`
      now holds `v`. */
  predicate SlotSet(img: Image, img': Image, i: nat, k: nat, v: nat) {
    && Shaped(img) && Shaped(img') && |img'.inodes| == |img.inodes| && |img'.blocks| == |img.blocks|
    && forall j, m | 0 <= j < |img.inodes| && 0 <= m <= INDIRECT ::
         Slot(img', j, m) == if j == i && m == k then v else Slot(img, j, m)
  }

  predicate SameSlots(img: Image, img': Image) {
    && Shaped(img) && Shaped(img') && |img'.inodes| == |img.inodes| && |img'.blocks| == |img.blocks|
    && forall j, m | 0 <= j < |img.inodes| && 0 <= m <= INDIRECT :: Slot(img', j, m) == Slot(img, j, m)
  }

  // ---------------------------------------------------------------- ownership

  /** The bitmap meaning of ownership: a data block is marked used if and only
      if some slot holds it, and then exactly one does. */
  lemma BitmapExact(nmeta: nat, bits: seq<bool>, img: Image, owner: map<nat, Ref>, b: nat)
    requires Owned(nmeta, bits, img, owner) && nmeta <= b < |bits|
    ensures bits[b] <==> exists i, k :: 0 <= i < |img.inodes| && 0 <= k <= INDIRECT && Slot(img, i, k) == b
    ensures forall i, k, j, m | 0 <= i < |img.inodes| && 0 <= k <= INDIRECT && 0 <= j < |img.inodes| && 0 <= m <= INDIRECT
              && Slot(img, i, k) == b && Slot(img, j, m) == b :: i == j && k == m
  {
    if bits[b] {
      assert Slot(img, owner[b].inum, owner[b].slot) == b;
    }
  }

  /** A free block enters an empty slot. */
  lemma Attach(nmeta: nat, bits: seq<bool>, img: Image, img': Image, owner: map<nat, Ref>, i: nat, k: nat, b: nat)
    requires Owned(nmeta, bits, img, owner) && i < |img.inodes| && k <= INDIRECT
    requires SlotSet(img, img', i, k, b) && Slot(img, i, k) == 0
    requires nmeta <= b < |bits| && !bits[b]
    ensures Owned(nmeta, bits[b := true], img', owner[b := Ref(i, k)])
  {
    var own := owner[b := Ref(i, k)];
    assert b !in owner;
    forall j, m | 0 <= j < |img'.inodes| && 0 <= m <= INDIRECT && Slot(img', j, m) != 0
      ensures Slot(img', j, m) in own && own[Slot(img', j, m)] == Ref(j, m)
    {
      if j != i || m != k {
        assert Slot(img, j, m) in owner;
      }
    }
    forall c | c in own
      ensures nmeta <= c < |bits| && bits[b := true][c] && own[c].inum < |img'.inodes| && own[c].slot <= INDIRECT
      ensures Slot(img', own[c].inum, own[c].slot) == c
    {
      if c != b {
        assert Slot(img, owner[c].inum, owner[c].slot) == c;
      }
    }
  }

  /** A block leaves its slot and becomes free. */
  lemma Detach(nmeta: nat, bits: seq<bool>, img: Image, img': Image, owner: map<nat, Ref>, i: nat, k: nat)
    requires Owned(nmeta, bits, img, owner) && i < |img.inodes| && k <= INDIRECT
    requires Slot(img, i, k) != 0 && SlotSet(img, img', i, k, 0)
    ensures Slot(img, i, k) in owner && nmeta <= Slot(img, i, k) < |bits| && bits[Slot(img, i, k)]
    ensures Owned(nmeta, bits[Slot(img, i, k) := false], img', owner - {Slot(img, i, k)})
  {
    var b := Slot(img, i, k);
    var own := owner - {b};
    forall j, m | 0 <= j < |img'.inodes| && 0 <= m <= INDIRECT && Slot(img', j, m) != 0
      ensures Slot(img', j, m) in own && own[Slot(img', j, m)] == Ref(j, m)
    {
      assert Slot(img, j, m) in owner;
    }
    forall c | c in own
      ensures nmeta <= c < |bits| && bits[b := false][c] && own[c].inum < |img'.inodes| && own[c].slot <= INDIRECT
      ensures Slot(img', own[c].inum, own[c].slot) == c
    {
      assert Slot(img, owner[c].inum, owner[c].slot) == c;
    }
  }

  lemma SameSlotsOwned(nmeta: nat, bits: seq<bool>, img: Image, img': Image, owner: map<nat, Ref>)
    requires Owned(nmeta, bits, img, owner) && SameSlots(img, img')
    ensures Owned(nmeta, bits, img', owner)
  {
  }

  // ---------------------------------------------------------------- what each update does to the slots

  function WithBlock(img: Image, b: nat, data: Block): Image
    requires b < |img.blocks|
  {
    img.(blocks := img.blocks[b := data])
  }

  function WithAddr(img: Image, i: nat, a: nat, b: nat): Image
    requires i < |img.inodes| && a < |img.inodes[i].addrs|
  {
    img.(inodes := img.inodes[i := img.inodes[i].(addrs := img.inodes[i].addrs[a := b])])
  }

  /** The slot that address `a` of the inode itself stands for. */
  function AddrSlot(a: nat): nat {
    if a == NDIRECT then INDIRECT else a
  }

  function WithEntry(img: Image, i: nat, e: nat, b: nat): Image
    requires Shaped(img) && i < |img.inodes| && e < NINDIRECT && b < UINT_MAX1
  {
    var ind := img.inodes[i].addrs[NDIRECT];
    WithBlock(img, ind, PutWord(img.blocks[ind], e, b))
  }

  /** Writing any block that is not somebody's indirect block moves no slot. */
  lemma DataWrite(nmeta: nat, bits: seq<bool>, img: Image, owner: map<nat, Ref>, b: nat, data: Block)
    requires Owned(nmeta, bits, img, owner) && 0 < b < |img.blocks|
    requires b in owner ==> owner[b].slot != INDIRECT
    ensures SameSlots(img, WithBlock(img, b, data))
  {
    forall j | 0 <= j < |img.inodes| ensures img.inodes[j].addrs[NDIRECT] != b {
      assert Slot(img, j, INDIRECT) == img.inodes[j].addrs[NDIRECT];
    }
  }

  /** Storing an address in the inode itself; a new indirect block must be zeroed. */
  lemma AddrWrite(img: Image, i: nat, a: nat, b: nat)
    requires Shaped(img) && i < |img.inodes| && a <= NDIRECT && b < |img.blocks|
    requires a == NDIRECT ==> img.inodes[i].addrs[NDIRECT] == 0 && img.blocks[b] == Zeroed()
    ensures SlotSet(img, WithAddr(img, i, a, b), i, AddrSlot(a), b)
  {
    var img' := WithAddr(img, i, a, b);
    if a == NDIRECT {
      forall m | NDIRECT <= m < INDIRECT ensures Slot(img', i, m) == 0 == Slot(img, i, m) {
        ZeroedWords(m - NDIRECT);
      }
    }
  }

  /** Storing an entry in the indirect block. */
  lemma EntryWrite(nmeta: nat, bits: seq<bool>, img: Image, owner: map<nat, Ref>, i: nat, e: nat, b: nat)
    requires Owned(nmeta, bits, img, owner) && i < |img.inodes| && e < NINDIRECT && b < |img.blocks|
    requires img.inodes[i].addrs[NDIRECT] != 0
    ensures SlotSet(img, WithEntry(img, i, e, b), i, NDIRECT + e, b)
  {
    var ind := img.inodes[i].addrs[NDIRECT];
    var img' := WithEntry(img, i, e, b);
    assert Slot(img, i, INDIRECT) == ind;
    forall j, m | 0 <= j < |img.inodes| && 0 <= m <= INDIRECT
      ensures Slot(img', j, m) == if j == i && m == NDIRECT + e then b else Slot(img, j, m)
    {
      if NDIRECT <= m < INDIRECT {
        if j == i {
          WordAfterPut(img.blocks[ind], e, b, m - NDIRECT);
        } else {
          assert Slot(img, j, INDIRECT) != ind;
        }
      }
    }
  }

  // ---------------------------------------------------------------- file contents

  /** Byte `o` of file `i`, as reading through the block map finds it. */
  function ByteAt(img: Image, i: nat, o: nat): byte
    requires Shaped(img) && i < |img.inodes| && o < MAXFILE * BSIZE
  {
    var b := Slot(img, i, o / BSIZE);
    if 0 < b < |img.blocks| then img.blocks[b].data[o % BSIZE] else 0
  }

  /** Every block below the end of the file is allocated. */
  predicate NoHoles(img: Image)
    requires Shaped(img)
  {
    forall i, k | 0 <= i < |img.inodes| && 0 <= k < MAXFILE && k * BSIZE < img.inodes[i].size :: Slot(img, i, k) != 0
  }

  predicate SizesFit(img: Image) {
    forall i | 0 <= i < |img.inodes| :: img.inodes[i].size <= MAXFILE * BSIZE
  }

  predicate Solid(img: Image) {
    Shaped(img) && NoHoles(img) && SizesFit(img)
  }

  /** The file as a plain sequence of bytes. */
  function Content(img: Image, i: nat): (s: seq<byte>)
    requires Shaped(img) && SizesFit(img) && i < |img.inodes|
    ensures |s| == img.inodes[i].size
  {
    seq(img.inodes[i].size, o requires 0 <= o < img.inodes[i].size => ByteAt(img, i, o))
  }

  /** A block with `data` stored from byte `at` on. */
  function Patch(b: Block, at: nat, data: seq<byte>): Block
    requires at + |data| <= BSIZE
  {
    Block(b.data[..at] + data + b.data[at + |data|..])
  }

  /** Storing part of one block of file `i` changes those bytes of that file
      and no other byte of any file. */
  lemma ChunkBytes(nmeta: nat, bits: seq<bool>, img: Image, owner: map<nat, Ref>, i: nat, off: nat, data: seq<byte>)
    requires Owned(nmeta, bits, img, owner) && i < |img.inodes|
    requires off < MAXFILE * BSIZE && off % BSIZE + |data| <= BSIZE
    requires Slot(img, i, off / BSIZE) != 0
    ensures Slot(img, i, off / BSIZE) < |img.blocks|
    ensures var b := Slot(img, i, off / BSIZE);
            var img' := WithBlock(img, b, Patch(img.blocks[b], off % BSIZE, data));
            && SameSlots(img, img')
            && (forall j, o | 0 <= j < |img.inodes| && 0 <= o < MAXFILE * BSIZE ::
                  ByteAt(img', j, o) == if j == i && off <= o < off + |data| then data[o - off] else ByteAt(img, j, o))
  {
    var b := Slot(img, i, off / BSIZE);
    assert b in owner && owner[b] == Ref(i, off / BSIZE);
    var img' := WithBlock(img, b, Patch(img.blocks[b], off % BSIZE, data));
    DataWrite(nmeta, bits, img, owner, b, Patch(img.blocks[b], off % BSIZE, data));
    forall j, o | 0 <= j < |img.inodes| && 0 <= o < MAXFILE * BSIZE
      ensures ByteAt(img', j, o) == if j == i && off <= o < off + |data| then data[o - off] else ByteAt(img, j, o)
    {
      var c := Slot(img, j, o / BSIZE);
      assert c == Slot(img', j, o / BSIZE);
      if c == b {
        assert owner[c] == Ref(j, o / BSIZE);
        SameBlock(off, o);
      } else if j == i && off <= o < off + |data| {
        InBlock(off, |data|, o);
      }
    }
  }

  lemma SameBlock(off: nat, o: nat)
    requires off / BSIZE == o / BSIZE
    ensures o - off == o % BSIZE - off % BSIZE
  {
  }

  lemma InBlock(off: nat, m: nat, o: nat)
    requires off % BSIZE + m <= BSIZE && off <= o < off + m
    ensures o / BSIZE == off / BSIZE
  {
  }

  /** Allocation only adds: sizes stay, used slots stay, and the data in them stays. */
  predicate Grown(img: Image, img': Image, owner: map<nat, Ref>) {
    && Shaped(img) && Shaped(img') && |img'.inodes| == |img.inodes| && |img'.blocks| == |img.blocks|
    && (forall j | 0 <= j < |img.inodes| :: img'.inodes[j].size == img.inodes[j].size)
    && (forall j, m | 0 <= j < |img.inodes| && 0 <= m <= INDIRECT && Slot(img, j, m) != 0 ::
          Slot(img', j, m) == Slot(img, j, m))
    && (forall b | b in owner && owner[b].slot != INDIRECT && b < |img.blocks| :: img'.blocks[b] == img.blocks[b])
  }

  lemma GrownBytes(nmeta: nat, bits: seq<bool>, img: Image, img': Image, owner: map<nat, Ref>, j: nat, o: nat)
    requires Owned(nmeta, bits, img, owner) && Grown(img, img', owner)
    requires j < |img.inodes| && o < MAXFILE * BSIZE && Slot(img, j, o / BSIZE) != 0
    ensures ByteAt(img', j, o) == ByteAt(img, j, o)
  {
    var b := Slot(img, j, o / BSIZE);
    assert b in owner && owner[b] == Ref(j, o / BSIZE);
  }

  /** A zeroed free block put into an empty address of the inode itself. */
  lemma AllocatedAddr(nmeta: nat, bits: seq<bool>, img: Image, owner: map<nat, Ref>, i: nat, a: nat, b: nat)
    requires Owned(nmeta, bits, img, owner) && i < |img.inodes| && a <= NDIRECT
    requires img.inodes[i].addrs[a] == 0 && b < |bits| && !bits[b]
    ensures var img' := WithAddr(WithBlock(img, b, Zeroed()), i, a, b);
            && Owned(nmeta, bits[b := true], img', owner[b := Ref(i, AddrSlot(a))])
            && SlotSet(img, img', i, AddrSlot(a), b)
            && Grown(img, img', owner)
  {
    var z := WithBlock(img, b, Zeroed());
    DataWrite(nmeta, bits, img, owner, b, Zeroed());
    AddrWrite(z, i, a, b);
    Attach(nmeta, bits, img, WithAddr(z, i, a, b), owner, i, AddrSlot(a), b);
  }

  /** A zeroed free block put into an empty entry of the indirect block. */
  lemma AllocatedEntry(nmeta: nat, bits: seq<bool>, img: Image, owner: map<nat, Ref>, i: nat, e: nat, b: nat)
    requires Owned(nmeta, bits, img, owner) && i < |img.inodes| && e < NINDIRECT
    requires Slot(img, i, INDIRECT) != 0 && Slot(img, i, NDIRECT + e) == 0 && b < |bits| && !bits[b]
    ensures var img' := WithEntry(WithBlock(img, b, Zeroed()), i, e, b);
            && Owned(nmeta, bits[b := true], img', owner[b := Ref(i, NDIRECT + e)])
            && SlotSet(img, img', i, NDIRECT + e, b)
            && Grown(img, img', owner)
            && img'.blocks[b] == Zeroed()
  {
    var z := WithBlock(img, b, Zeroed());
    DataWrite(nmeta, bits, img, owner, b, Zeroed());
    SameSlotsOwned(nmeta, bits, img, z, owner);
    EntryWrite(nmeta, bits, z, owner, i, e, b);
    Attach(nmeta, bits, img, WithEntry(z, i, e, b), owner, i, NDIRECT + e, b);
    assert owner[Slot(img, i, INDIRECT)] == Ref(i, INDIRECT);
  }

  // ---------------------------------------------------------------- writing a file

  /** `old` with `data` written over it from `off` on, extended if need be. */
  function Splice(old_: seq<byte>, off: nat, data: seq<byte>): (r: seq<byte>)
    requires off <= |old_|
    ensures |r| == if off + |data| < |old_| then |old_| else off + |data|
  {
    old_[..off] + data + if off + |data| < |old_| then old_[off + |data|..] else []
  }

  /** Between the two images `data` was stored in file `i` from `off` on, and
      no other byte below the end of any file changed. */
  predicate Written(img: Image, img': Image, i: nat, off: nat, data: seq<byte>) {
    && Shaped(img) && Shaped(img') && |img'.inodes| == |img.inodes| && SizesFit(img) && i < |img.inodes|
    && off + |data| <= MAXFILE * BSIZE
    && (forall j | 0 <= j < |img.inodes| :: img'.inodes[j].size == img.inodes[j].size)
    && (forall o | off <= o < off + |data| :: ByteAt(img', i, o) == data[o - off])
    && (forall j, o | 0 <= j < |img.inodes| && 0 <= o < img.inodes[j].size && (j != i || o < off || off + |data| <= o) ::
          ByteAt(img', j, o) == ByteAt(img, j, o))
  }

  /** One more chunk, directly behind what was written so far. */
  lemma WrittenMore(img: Image, mid: Image, img': Image, i: nat, off: nat, data: seq<byte>, chunk: seq<byte>)
    requires Written(img, mid, i, off, data) && Shaped(img') && |img'.inodes| == |img.inodes|
    requires off + |data| + |chunk| <= MAXFILE * BSIZE
    requires forall j | 0 <= j < |img.inodes| :: img'.inodes[j].size == img.inodes[j].size
    requires forall o | off <= o < off + |data| :: ByteAt(img', i, o) == ByteAt(mid, i, o)
    requires forall o | off + |data| <= o < off + |data| + |chunk| :: ByteAt(img', i, o) == chunk[o - off - |data|]
    requires forall j, o | 0 <= j < |img.inodes| && 0 <= o < img.inodes[j].size
               && (j != i || o < off + |data| || off + |data| + |chunk| <= o) :: ByteAt(img', j, o) == ByteAt(mid, j, o)
    ensures Written(img, img', i, off, data + chunk)
  {
    forall o | off <= o < off + |data + chunk| ensures ByteAt(img', i, o) == (data + chunk)[o - off] {
      if o < off + |data| {
        assert ByteAt(mid, i, o) == data[o - off];
      }
    }
  }

  function WithSize(img: Image, i: nat, size: nat): Image
    requires i < |img.inodes|
  {
    img.(inodes := img.inodes[i := img.inodes[i].(size := size)])
  }

  lemma SizeMovesNoByte(img: Image, i: nat, size: nat)
    requires Shaped(img) && i < |img.inodes|
    ensures SameSlots(img, WithSize(img, i, size))
    ensures forall j, o | 0 <= j < |img.inodes| && 0 <= o < MAXFILE * BSIZE ::
              ByteAt(WithSize(img, i, size), j, o) == ByteAt(img, j, o)
  {
    var img' := WithSize(img, i, size);
    assert SameSlots(img, img');
    forall j, o | 0 <= j < |img.inodes| && 0 <= o < MAXFILE * BSIZE
      ensures ByteAt(img', j, o) == ByteAt(img, j, o)
    {
      assert Slot(img', j, o / BSIZE) == Slot(img, j, o / BSIZE);
    }
  }

  /** The file as a sequence after its bytes were stored and its size set:
      the old contents with the data written over them, cut at the new size. */
  lemma WrittenContent(img: Image, mid: Image, i: nat, off: nat, data: seq<byte>, size: nat)
    requires Written(img, mid, i, off, data) && off <= img.inodes[i].size <= size <= MAXFILE * BSIZE
    requires size <= img.inodes[i].size || size <= off + |data|
    ensures SizesFit(WithSize(mid, i, size)) && Shaped(WithSize(mid, i, size))
    ensures Content(WithSize(mid, i, size), i) == Splice(Content(img, i), off, data)[..size]
    ensures forall j | 0 <= j < |img.inodes| && j != i :: Content(WithSize(mid, i, size), j) == Content(img, j)
  {
    var img' := WithSize(mid, i, size);
    SizeMovesNoByte(mid, i, size);
    var want := Splice(Content(img, i), off, data)[..size];
    forall o | 0 <= o < size ensures Content(img', i)[o] == want[o] {
      assert ByteAt(img', i, o) == ByteAt(mid, i, o);
      if off <= o < off + |data| {
        assert ByteAt(mid, i, o) == data[o - off];
      } else {
        assert ByteAt(mid, i, o) == ByteAt(img, i, o);
      }
    }
    forall j | 0 <= j < |img.inodes| && j != i ensures Content(img', j) == Content(img, j) {
      forall o | 0 <= o < img.inodes[j].size ensures Content(img', j)[o] == Content(img, j)[o] {
        assert ByteAt(mid, j, o) == ByteAt(img, j, o);
      }
    }
  }
}
