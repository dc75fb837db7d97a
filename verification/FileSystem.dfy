/** The block allocator and the inode layer of kernel/fs.c, and the inode
    branch of `filewrite` in kernel/file.c. */
module FileSystem {
  import opened Bytes
  import opened Inodes
  import opened Params
  import opened Sequences
  import opened Space

  const BPB := BSIZE * 8
  const IPB := 16

  class Fs {
    const nmeta: nat           // first data block: boot, super, log, inode and bitmap blocks precede it
    const inodestart: nat
    const bmapstart: nat
    var bits: seq<bool>        // the free map, one bit a block
    var img: Image             // block contents as bread returns them, and the in-memory inodes
    var dinodes: seq<Inode>    // the inodes as iupdate last stored them on disk
    var logged: set<nat>       // block numbers given to log_write since begin_op
    ghost var owner: map<nat, Ref>

    function BBlock(b: nat): nat {
      b / BPB + bmapstart
    }

    function IBlock(i: nat): nat {
      i / IPB + inodestart
    }

    ghost predicate Sound()
      reads this`bits, this`img, this`owner
    {
      Owned(nmeta, bits, img, owner) && Solid(img)
    }

    /** Between operations the inodes on disk agree with those in memory. */
    ghost predicate Valid()
      reads this`bits, this`img, this`owner, this`dinodes
    {
      Sound() && dinodes == img.inodes
    }

    /** What mkfs leaves, before it adds a first file: every inode is empty and
        only the metadata blocks are marked used. */
    constructor (nmeta: nat, inodestart: nat, bmapstart: nat, size: nat, ninodes: nat)
      requires 0 < nmeta <= size <= UINT_MAX1
      ensures Valid() && |bits| == size && forall b | 0 <= b < size :: bits[b] <==> b < nmeta
      ensures |img.inodes| == ninodes && forall i | 0 <= i < ninodes :: img.inodes[i] == Inode(0, seq(NDIRECT + 1, _ => 0))
      ensures this.nmeta == nmeta && this.inodestart == inodestart && this.bmapstart == bmapstart
    {
      var none: seq<nat> := seq(NDIRECT + 1, _ => 0);
      this.nmeta, this.inodestart, this.bmapstart := nmeta, inodestart, bmapstart;
      bits := seq(size, b => b < nmeta);
      img := Image(seq(size, _ => Zeroed()), seq(ninodes, _ => Inode(0, none)));
      dinodes := seq(ninodes, _ => Inode(0, none));
      logged, owner := {}, map[];
      new;
      assert dinodes == img.inodes;
    }

    /** `balloc`: the first free block, marked used and zeroed; 0 if none. */
    method Balloc() returns (r: nat)
      requires 0 < |bits| == |img.blocks| && bits[0]
      modifies this`bits, this`img, this`logged
      ensures r == 0 ==> Full(bits) && bits == old(bits) && img == old(img) && logged == old(logged)
      ensures r != 0 ==>
                && r < |old(bits)| && !old(bits)[r] && (forall c | 0 <= c < r :: old(bits)[c])
                && bits == old(bits)[r := true]
                && img == WithBlock(old(img), r, Zeroed())
                && logged == old(logged) + {BBlock(r), r}
    {
      var b := 0;
      while b < |bits|
        invariant b % BPB == 0
        invariant forall c | 0 <= c < b && c < |bits| :: bits[c]
        invariant bits == old(bits) && img == old(img) && logged == old(logged)
      {
        var bi := 0;
        while bi < BPB && b + bi < |bits|
          invariant 0 <= bi <= BPB && b + bi <= |bits|
          invariant forall c | 0 <= c < b + bi :: bits[c]
          invariant bits == old(bits) && img == old(img) && logged == old(logged)
        {
          if !bits[b + bi] {
            bits := bits[b + bi := true];
            logged := logged + {BBlock(b)};
            SameBitmapBlock(b, bi);
            Bzero(b + bi);
            return b + bi;
          }
          bi := bi + 1;
        }
        b := b + BPB;
      }
      return 0;
    }

    method Bzero(b: nat)
      requires b < |img.blocks|
      modifies this`img, this`logged
      ensures img == WithBlock(old(img), b, Zeroed())
      ensures logged == old(logged) + {b}
    {
      img := WithBlock(img, b, Zeroed());
      logged := logged + {b};
    }

    /** `bfree`; freeing a free block would panic. */
    method Bfree(b: nat)
      requires b < |bits| && bits[b]
      modifies this`bits, this`logged
      ensures bits == old(bits)[b := false]
      ensures logged == old(logged) + {BBlock(b)}
    {
      bits := bits[b := false];
      logged := logged + {BBlock(b)};
    }

    ghost function Now(): Snap
      reads this`bits, this`img, this`logged, this`owner
    {
      Snap(bits, img, logged, owner)
    }

    /** `bmap`: the block behind block `bn` of the file, allocated if missing;
        0 if the disk is full.  `bm` are the bitmap blocks it dirtied. */
    method Bmap(i: nat, bn: nat) returns (addr: nat, ghost bm: set<nat>)
      requires Owned(nmeta, bits, img, owner) && i < |img.inodes| && bn < MAXFILE
      modifies this`bits, this`img, this`logged, this`owner
      ensures BmapDone(nmeta, old(Now()), Now(), i, bn, addr, bm)
      ensures Pays(old(Now()), Now(), i, bn)
      ensures MapLogged(bmapstart, old(Now()), Now()) && Grew(old(Now()), Now(), i)
    {
      if bn < NDIRECT {
        addr, bm := NeedAddr(i, bn);
        PaysDirect(old(Now()), Now(), i, bn);
      } else {
        addr, bm := BmapIndirect(i, bn - NDIRECT);
      }
    }

    /** Load an address of the inode itself, allocating a block if necessary. */
    method NeedAddr(i: nat, a: nat) returns (addr: nat, ghost bm: set<nat>)
      requires Owned(nmeta, bits, img, owner) && i < |img.inodes| && a <= NDIRECT
      modifies this`bits, this`img, this`logged, this`owner
      ensures BmapDone(nmeta, old(Now()), Now(), i, AddrSlot(a), addr, bm)
      ensures Took(old(Now()), Now(), i, AddrSlot(a))
      ensures MapLogged(bmapstart, old(Now()), Now()) && Grew(old(Now()), Now(), i)
      ensures |img.inodes| == |old(img).inodes|
      ensures forall b | b in old(owner) :: b in owner && owner[b] == old(owner)[b]
    {
      hide BmapDone, SlotsOwned, OwnersHold, Took;
      bm := {};
      addr := img.inodes[i].addrs[a];
      if addr != 0 {
        BmapFound(nmeta, Now(), i, AddrSlot(a));
      } else {
        addr := Balloc();
        if addr == 0 {
          BmapFull(nmeta, Now(), i, AddrSlot(a));
        } else {
          BmapAddr(nmeta, old(Now()), i, a, addr, BBlock(addr));
          img := WithAddr(img, i, a, addr);
          owner := owner[addr := Ref(i, AddrSlot(a))];
          bm := {BBlock(addr)};
        }
      }
    }

    /** Load an entry of the indirect block, allocating a block if necessary. */
    method NeedEntry(i: nat, e: nat) returns (addr: nat, ghost bm: set<nat>)
      requires Owned(nmeta, bits, img, owner) && i < |img.inodes| && e < NINDIRECT
      requires Slot(img, i, INDIRECT) != 0
      modifies this`bits, this`img, this`logged, this`owner
      ensures BmapDone(nmeta, old(Now()), Now(), i, NDIRECT + e, addr, bm)
      ensures Took(old(Now()), Now(), i, NDIRECT + e)
      ensures MapLogged(bmapstart, old(Now()), Now()) && Grew(old(Now()), Now(), i)
    {
      hide BmapDone, SlotsOwned, OwnersHold, Took;
      bm := {};
      var ind := img.inodes[i].addrs[NDIRECT];
      addr := Word(img.blocks[ind], e);
      if addr != 0 {
        BmapFound(nmeta, Now(), i, NDIRECT + e);
      } else {
        addr := Balloc();
        if addr == 0 {
          BmapFull(nmeta, Now(), i, NDIRECT + e);
        } else {
          BmapEntry(nmeta, old(Now()), i, e, addr, BBlock(addr));
          img := WithEntry(img, i, e, addr);
          logged := logged + {ind};
          owner := owner[addr := Ref(i, NDIRECT + e)];
          bm := {BBlock(addr)};
        }
      }
    }

    method BmapIndirect(i: nat, e: nat) returns (addr: nat, ghost bm: set<nat>)
      requires Owned(nmeta, bits, img, owner) && i < |img.inodes| && e < NINDIRECT
      modifies this`bits, this`img, this`logged, this`owner
      ensures BmapDone(nmeta, old(Now()), Now(), i, NDIRECT + e, addr, bm)
      ensures Pays(old(Now()), Now(), i, NDIRECT + e)
      ensures MapLogged(bmapstart, old(Now()), Now()) && Grew(old(Now()), Now(), i)
    {
      hide Owned, Mapped, Accounted, Full, Took, Pays, MapLogged, Grew;
      ghost var before := Now();
      var ind;
      ind, bm := NeedAddr(i, NDIRECT);
      ghost var mid := Now();
      addr := 0;
      if ind == 0 {
        NoIndirect(nmeta, before, mid, i, NDIRECT + e, bm);
        PaysNothing(before, mid, i, NDIRECT + e);
      } else {
        ghost var bm2;
        addr, bm2 := NeedEntry(i, e);
        ThenEntry(nmeta, before, mid, Now(), i, NDIRECT + e, ind, addr, bm, bm2);
        PaysIndirect(before, mid, Now(), i, NDIRECT + e);
        MapLoggedMore(bmapstart, before, mid, Now());
        GrewMore(before, mid, Now(), i);
        bm := bm + bm2;
      }
    }

    /** One pass of the loop in `writei`.  `data` is the readable part of the
        `m` source bytes; a short one makes `either_copyin` fail after copying
        what it could, and the block is then released without being logged. */
    method WriteChunk(i: nat, off: nat, data: seq<byte>, m: nat) returns (ok: bool, ghost bm: set<nat>)
      requires Owned(nmeta, bits, img, owner) && i < |img.inodes| && off < MAXFILE * BSIZE
      requires |data| <= m && off % BSIZE + m <= BSIZE
      modifies this`bits, this`img, this`logged, this`owner
      ensures |img.inodes| == |old(img).inodes| && Shaped(img)
      ensures ok <==> Slot(img, i, off / BSIZE) != 0 && |data| == m
      ensures Slot(img, i, off / BSIZE) == 0 ==> Full(bits)
      ensures ChunkDone(nmeta, old(Now()), Now(), i, off, if Slot(img, i, off / BSIZE) == 0 then [] else data, bm,
                        if |data| == m || data == [] then {} else Used(img, i, off / BSIZE))
      ensures Pays(old(Now()), Now(), i, off / BSIZE)
      ensures MapLogged(bmapstart, old(Now()), Now()) && Grew(old(Now()), Now(), i)
    {
      hide Pays, MapLogged, BmapDone, ChunkDone, SlotsOwned, OwnersHold, Slot, Grew;
      var addr;
      addr, bm := Bmap(i, off / BSIZE);
      ghost var mid := Now();
      BmapGives(nmeta, old(Now()), mid, i, off / BSIZE, addr, bm);
      if addr == 0 {
        ChunkNone(nmeta, old(Now()), mid, i, off, bm);
        return false, bm;
      }
      ok := |data| == m;
      ChunkStored(nmeta, old(Now()), mid, i, off, data, addr, bm, ok);
      img := WithBlock(img, addr, Patch(img.blocks[addr], off % BSIZE, data));
      if ok {
        logged := logged + {addr};
      }
      PaysSame(old(Now()), mid, Now(), i, off / BSIZE);
      MapLoggedSame(bmapstart, old(Now()), mid, Now());
      GrewStored(nmeta, old(Now()), mid, Now(), i, off / BSIZE, addr, bm);
    }

    /** `iupdate`: store the in-memory inode on disk. */
    method Iupdate(i: nat)
      requires i < |img.inodes| == |dinodes|
      modifies this`dinodes, this`logged
      ensures dinodes == old(dinodes)[i := img.inodes[i]]
      ensures logged == old(logged) + {IBlock(i)}
    {
      dinodes := dinodes[i := img.inodes[i]];
      logged := logged + {IBlock(i)};
    }

    /** `writei`.  `src` holds the bytes that can be read from the source
        address on, up to the first that cannot (at least `n` of them for a
        kernel source).  `leak` bytes more than reported reach the file when a
        copy fails half way. */
    method Writei(i: nat, src: seq<byte>, off: nat, n: nat) returns (ret: int, ghost leak: nat)
      requires Valid() && i < |img.inodes| && off < UINT_MAX1 && n < UINT_MAX1
      modifies this`bits, this`img, this`logged, this`owner, this`dinodes
      ensures Valid()
      ensures ret == -1 <==> off > old(img).inodes[i].size || off + n >= UINT_MAX1 || off + n > MAXFILE * BSIZE
      ensures ret == -1 ==> Now() == old(Now()) && dinodes == old(dinodes)
      ensures ret != -1 ==> 0 <= ret && Wrote(old(Now()), Now(), i, off, n, src, ret, leak)
      ensures ret != -1 ==> MapLogged(bmapstart, old(Now()), Now()) && InodeLogged(old(Now()), Now(), i, IBlock(i))
      ensures Grew(old(Now()), Now(), i)
    {
      hide Owned, Solid, Wrote, MapLogged, Grew;
      GrewNone(Now(), logged, i);
      if off > img.inodes[i].size || (off + n) % UINT_MAX1 < off {
        return -1, 0;
      }
      if (off + n) % UINT_MAX1 > MAXFILE * BSIZE {
        return -1, 0;
      }
      ret, leak := WriteFile(i, src, off, n);
    }

    /** `writei` once its arguments are accepted. */
    method WriteFile(i: nat, src: seq<byte>, off: nat, n: nat) returns (tot: nat, ghost leak: nat)
      requires Valid() && i < |img.inodes| && off <= img.inodes[i].size && off + n <= MAXFILE * BSIZE
      modifies this`bits, this`img, this`logged, this`owner, this`dinodes
      ensures Valid()
      ensures Wrote(old(Now()), Now(), i, off, n, src, tot, leak)
      ensures MapLogged(bmapstart, old(Now()), Now()) && InodeLogged(old(Now()), Now(), i, IBlock(i))
      ensures Grew(old(Now()), Now(), i)
    {
      hide MapLogged, Grew, Owned, NoHoles, SlotsOwned, OwnersHold, Progress, Tally, Logs, Leaked, Splice, Slot, Spent, Content;
      ghost var s0 := Now();
      ghost var passes, data, bm;
      tot, leak, passes, data, bm := WriteLoop(i, src, off, n);
      ghost var filled := Now();
      WriteDone(nmeta, s0, filled, i, off, src[..tot + leak], tot, leak, IBlock(i));
      if off + tot > img.inodes[i].size {
        img := WithSize(img, i, off + tot);
      }
      assert img == WithSize(filled.img, i, Max(s0.img.inodes[i].size, off + tot));
      Iupdate(i);
      SpentSame(s0, filled, Now(), i, off, n, |src|, tot, leak);
      MapLoggedSame(bmapstart, s0, filled, Now());
      GrewSame(s0, filled, Now(), i);
      if n <= CHUNK {
        TallyBound(s0, filled, i, off, n, passes, data, bm, IBlock(i), Leaked(filled.img, i, off + tot, leak));
      }
    }

    /** The loop of `writei`. */
    method WriteLoop(i: nat, src: seq<byte>, off: nat, n: nat)
      returns (tot: nat, ghost leak: nat, ghost passes: nat, ghost data: set<nat>, ghost bm: set<nat>)
      requires Sound() && i < |img.inodes| && off <= img.inodes[i].size && off + n <= MAXFILE * BSIZE
      modifies this`bits, this`img, this`logged, this`owner
      ensures |img.inodes| == |old(img).inodes| && Shaped(img)
      ensures tot <= n && tot + leak <= |src| && (leak > 0 ==> tot + leak == |src| < n)
      ensures Spent(old(Now()), Now(), i, off, n, |src|, tot, leak)
      ensures Progress(nmeta, old(Now()), Now(), i, off, src[..tot + leak], Leaked(img, i, off + tot, leak))
      ensures Tally(old(Now()), Now(), i, off, passes, data, bm) && Leaked(img, i, off + tot, leak) <= data
      ensures passes > 0 ==> (off / BSIZE + passes - 1) * BSIZE < off + n
      ensures MapLogged(bmapstart, old(Now()), Now()) && Grew(old(Now()), Now(), i)
    {
      hide MapLogged, Grew, Owned, NoHoles, SlotsOwned, OwnersHold, ChunkDone, Progress, Tally, LoopAt, SpaceAt, Pays, Spent, Leaked, Slot, Want, Got;
      ghost var s0 := Now();
      var o, going := off, true;
      tot, leak, passes, data, bm := 0, 0, 0, {}, {};
      LoopStart(nmeta, s0, i, off, n, src);
      SpaceStart(s0, i, off, n, |src|);
      MapLoggedNone(bmapstart, s0);
      GrewNone(s0, logged, i);
      while going && tot < n
        invariant o == off + tot && tot <= n && |img.inodes| == |old(img).inodes| && Shaped(img)
        invariant LoopAt(nmeta, s0, Now(), i, off, n, src, going, tot, leak, passes, data, bm)
        invariant SpaceAt(s0, Now(), i, off, n, |src|, going, tot, leak, passes)
        invariant MapLogged(bmapstart, s0, Now()) && Grew(s0, Now(), i)
        decreases going, n - tot
      {
        LoopGives(nmeta, s0, Now(), i, off, n, src, going, tot, leak, passes, data, bm);
        var m, got := Want(off, n, tot), Got(off, n, tot, |src|);
        WantGot(off, n, tot, |src|);
        ghost var before := Now();
        var ok;
        ghost var bm2;
        ok, bm2 := WriteChunk(i, o, src[tot..tot + got], m);
        LoopPass(nmeta, s0, before, Now(), i, off, n, src, tot, passes, data, bm, bm2);
        SpacePass(s0, before, Now(), i, off, n, |src|, tot, passes);
        MapLoggedMore(bmapstart, s0, before, Now());
        GrewMore(s0, before, Now(), i);
        passes, data, bm := passes + 1, data + Used(img, i, o / BSIZE), bm + bm2;
        if ok {
          tot, o := tot + m, o + m;
        } else {
          going := false;
          leak := if Slot(img, i, o / BSIZE) == 0 then 0 else got;
        }
      }
      LoopGives(nmeta, s0, Now(), i, off, n, src, going, tot, leak, passes, data, bm);
      SpaceGives(s0, Now(), i, off, n, |src|, going, tot, leak, passes);
    }

    /** `readi`: the slice of the file that was asked for, cut at its end.
        `room` is how many bytes can be stored from the destination on; when
        they run out the call fails with a part delivered.  Reading allocates
        nothing and changes nothing. */
    method Readi(i: nat, off: nat, n: nat, room: nat) returns (ret: int, out: seq<byte>)
      requires Sound() && i < |img.inodes| && off < UINT_MAX1 && n < UINT_MAX1
      modifies this`bits, this`img, this`logged, this`owner
      ensures Now() == old(Now())
      ensures off > img.inodes[i].size || off + n >= UINT_MAX1 ==> ret == 0 && out == []
      ensures off <= img.inodes[i].size && off + n < UINT_MAX1 ==>
                SizesFit(img) &&
                var len := Min(n, img.inodes[i].size - off);
                && IsSlice(out, Content(img, i), off, off + Min(len, room))
                && ret == if len <= room then len else -1
    {
      hide Owned, Solid, BmapDone, Pays, IsSlice, Slot, Grew, MapLogged, Content, Want, Got;
      ret, out := 0, [];
      if off > img.inodes[i].size || (off + n) % UINT_MAX1 < off {
        return;
      }
      var len := n;
      if (off + n) % UINT_MAX1 > img.inodes[i].size {
        len := img.inodes[i].size - off;
      }
      SoundGives(nmeta, bits, img, owner);
      ghost var file := Content(img, i);
      SliceNone(file, off);
      var tot, o := 0, off;
      while tot < len
        invariant 0 <= tot <= len && o == off + tot && tot <= room
        invariant Now() == old(Now())
        invariant IsSlice(out, file, off, o)
      {
        ReadsAllocated(img, i, o);
        var addr;
        ghost var bm;
        ghost var before := Now();
        addr, bm := Bmap(i, o / BSIZE);
        BmapLookup(nmeta, before, Now(), i, o / BSIZE, addr, bm);
        var m, got := Want(off, len, tot), Got(off, len, tot, room);
        WantGot(off, len, tot, room);
        ReadPass(nmeta, bits, img, owner, i, out, off, o, got);
        out := out + img.blocks[addr].data[o % BSIZE..o % BSIZE + got];
        if got < m {
          return -1, out;
        }
        tot, o := tot + m, o + m;
      }
      ret := tot;
    }

    /** `itrunc`: the file becomes empty, and exactly its blocks become free. */
    method Itrunc(i: nat)
      requires Valid() && i < |img.inodes|
      modifies this`bits, this`img, this`logged, this`owner, this`dinodes
      ensures Valid()
      ensures Truncated(old(Now()), Now(), i)
      ensures logged == old(logged) + MapBlocks(bmapstart, old(img), i, INDIRECT + 1) + {IBlock(i)}
      ensures Journaled(bmapstart, inodestart, old(Now()), Now()) && Shrunk(old(Now()), Now(), i)
    {
      hide Owned, TruncAt, Truncated, Solid, MapBlocks;
      ghost var s0 := Now();
      SoundGives(nmeta, bits, img, owner);
      TruncDirect(i);
      ghost var s1 := Now();
      TruncIndirect(i, s0);
      ghost var s2 := Now();
      TruncDone(nmeta, s0, s2, i, logged + {IBlock(i)});
      img := WithSize(img, i, 0);
      Iupdate(i);
      TruncShrunk(nmeta, s0, s2, Now(), i);
      JournalTrunc(nmeta, bmapstart, inodestart, s0, Now(), i);
    }

    method TruncDirect(i: nat)
      requires Owned(nmeta, bits, img, owner) && i < |img.inodes|
      modifies this`bits, this`img, this`logged, this`owner
      ensures TruncAt(nmeta, old(Now()), Now(), i, NDIRECT)
      ensures |img.inodes| == |old(img).inodes|
      ensures logged == old(logged) + MapBlocks(bmapstart, old(img), i, NDIRECT)
    {
      hide SlotsOwned, OwnersHold, MapBlocks;
      var k := 0;
      MapNone(bmapstart, img, i);
      while k < NDIRECT
        invariant 0 <= k <= NDIRECT && |img.inodes| == |old(img).inodes|
        invariant TruncAt(nmeta, old(Now()), Now(), i, k)
        invariant logged == old(logged) + MapBlocks(bmapstart, old(img), i, k)
      {
        MapMore(bmapstart, old(img), i, k);
        ghost var before := Now();
        TruncStep(nmeta, old(Now()), before, i, k, logged + {BBlock(img.inodes[i].addrs[k])});
        if img.inodes[i].addrs[k] != 0 {
          ghost var b := img.inodes[i].addrs[k];
          Bfree(img.inodes[i].addrs[k]);
          img := WithAddr(img, i, k, 0);
          owner := owner - {b};
        }
        k := k + 1;
      }
    }

    method TruncIndirect(i: nat, ghost s0: Snap)
      requires TruncAt(nmeta, s0, Now(), i, NDIRECT) && i < |img.inodes| && Shaped(s0.img) && i < |s0.img.inodes|
      requires logged == s0.logged + MapBlocks(bmapstart, s0.img, i, NDIRECT)
      modifies this`bits, this`img, this`logged, this`owner
      ensures TruncAt(nmeta, s0, Now(), i, INDIRECT + 1)
      ensures |img.inodes| == |old(img).inodes|
      ensures logged == s0.logged + MapBlocks(bmapstart, s0.img, i, INDIRECT + 1)
    {
      hide SlotsOwned, OwnersHold, MapBlocks, TruncAt, Cleared;
      ghost var s1 := Now();
      SlotsLeft(nmeta, s0, s1, i);
      var ind := img.inodes[i].addrs[NDIRECT];
      ClearNone(s1.bits, owner, i);
      if ind != 0 {
        var j := 0;
        while j < NINDIRECT
          invariant 0 <= j <= NINDIRECT && img == s1.img && owner == s1.owner
          invariant Cleared(s1.bits, bits, owner, i, j)
          invariant logged == s0.logged + MapBlocks(bmapstart, s0.img, i, NDIRECT + j)
        {
          MapMore(bmapstart, s0.img, i, NDIRECT + j);
          ClearStep(nmeta, s1, bits, i, j);
          if Word(img.blocks[ind], j) != 0 {
            Bfree(Word(img.blocks[ind], j));
          }
          j := j + 1;
        }
        MapMore(bmapstart, s0.img, i, INDIRECT);
        ClearStep(nmeta, s1, bits, i, NINDIRECT);
        Bfree(ind);
        img := WithAddr(img, i, NDIRECT, 0);
      } else {
        MapEmpty(bmapstart, s0.img, i);
      }
      owner := Without(owner, i);
      DropRest(nmeta, s0, s1, Now(), i);
    }

    /** The inode branch of `filewrite`: chunks of at most three blocks, each in a
        transaction of its own, until one is short.  If the file system is
        `shared`, other processes make transactions of their own in between, and
        may move the offset of the open file.  `turns` records the transactions of
        this call. */
    method Filewrite(i: nat, off: nat, src: seq<byte>, n: int, shared: bool)
      returns (ret: int, off': nat, ghost leak: nat, ghost turns: seq<Turn>)
      requires Valid() && i < |img.inodes| && off < UINT_MAX1 && n < UINT_MAX1
      modifies this`bits, this`img, this`logged, this`owner, this`dinodes
      ensures Valid() && |img.inodes| == |old(img).inodes|
      ensures Turns(bmapstart, inodestart, turns, i, src, n) && AllFull(turns, n, |turns| - 1)
      ensures n > 0 ==> |turns| > 0 && Now() == turns[|turns| - 1].after && ret == if AllFull(turns, n, |turns|) then n else -1
      ensures n > 0 && ret == n ==> |turns| == Chunks(n)
      ensures n <= 0 ==> Now() == old(Now()) && off' == off && turns == [] && ret == if n == 0 then n else -1
      ensures !shared ==> off <= off' && Chained(old(img), img, i, off, src, off' - off, leak)
      ensures !shared ==> |turns| == Transactions(n, ret, off' - off)
      ensures !shared && n >= 0 ==> (ret == n <==> off' == off + n) && (ret == n ==> leak == 0) && off' <= off + n
      ensures !shared && n > 0 ==> (ret == n <==> WillFit(old(Now()), i, off, n, |src|))
    {
      hide Owned, Solid, Chained, Filing, Transacted, WillFit, JournaledBut, Grew, Turns, AllFull, Turned, Chunks;
      ghost var s0 := Now();
      var max := (MAXOPBLOCKS - 1 - 1 - 2) / 2 * BSIZE;
      var done := 0;
      off', leak, turns := off, 0, [];
      FilingStart(s0, i, off, src, n);
      TurnedStart(bmapstart, inodestart, i, src, n);
      while done < n
        invariant 0 <= done && off' < UINT_MAX1 && leak == 0
        invariant Valid() && |img.inodes| == |old(img).inodes|
        invariant Turned(bmapstart, inodestart, turns, i, src, n, done)
        invariant done > 0 ==> done <= n && |turns| > 0 && Now() == turns[|turns| - 1].after
        invariant !shared ==> off' == off + done && Filing(s0, Now(), i, off, src, n, done)
        invariant done == 0 ==> turns == []
        invariant n <= 0 ==> Now() == s0 && off' == off
      {
        var n1 := n - done;
        if n1 > max {
          n1 := max;
        }
        if shared {
          off' := Others();
        }
        ghost var before := Now();
        TurnedGives(bmapstart, inodestart, turns, i, src, n, done);
        var r;
        r, leak := Transaction(i, src[done..], off', n1);
        TransactedGives(before, Now(), i, off', n1, src[done..], r, leak);
        TurnedMore(bmapstart, inodestart, turns, i, src, n, done, n1, Turn(before, off', Now(), r, leak));
        turns := turns + [Turn(before, off', Now(), r, leak)];
        if !shared {
          FilingGives(s0, before, i, off, src, n, done);
          FilingPass(s0, before, Now(), i, off, src, n, done, n1, r, leak);
        }
        if r == -1 {
          leak := 0;
          break;
        }
        off' := off' + r;
        if r != n1 {
          ShortChunk(done, r);
          break;
        }
        done := done + r;
      }
      ret := if done == n then n else -1;
      if done >= n {
        TurnedGives(bmapstart, inodestart, turns, i, src, n, done);
        if !shared {
          FilingGives(s0, Now(), i, off, src, n, done);
        }
      }
    }

    /** What other processes do between the transactions of one: any number of
        transactions of theirs, on any files, and they move a shared offset. */
    method Others() returns (off: nat)
      requires Valid()
      modifies this`bits, this`img, this`logged, this`owner, this`dinodes
      ensures Valid() && |img.inodes| == |old(img).inodes| && off < UINT_MAX1
    {
      hide Owned, Solid, Transacted, JournaledBut, Grew, Shrunk, MapBlocks;
      var turns: nat, at: nat := *, *;
      while turns > 0
        invariant Valid() && |img.inodes| == |old(img).inodes|
      {
        var j: nat, from: nat, n: nat, src: seq<byte>, write: bool := *, *, *, *, *;
        if j < |img.inodes| && write && from < UINT_MAX1 && n <= CHUNK {
          var r, leak := Transaction(j, src, from, n);
        } else if j < |img.inodes| && !write {
          Itrunc(j);
        }
        turns := turns - 1;
      }
      off := at % UINT_MAX1;
    }

    /** One transaction of `filewrite`: at most three blocks' worth of bytes
        dirty at most MAXOPBLOCKS blocks, wherever they start. */
    method Transaction(i: nat, src: seq<byte>, off: nat, n: nat) returns (r: int, ghost leak: nat)
      requires Valid() && i < |img.inodes| && off < UINT_MAX1 && n <= CHUNK
      modifies this`bits, this`img, this`logged, this`owner, this`dinodes
      ensures Valid() && |img.inodes| == |old(img).inodes|
      ensures Transacted(old(Now()), Now(), i, off, n, src, r, leak)
      ensures JournaledBut(bmapstart, inodestart, old(Now()), Now(), LeakedBy(img, i, off, r, leak)) && Grew(old(Now()), Now(), i)
    {
      hide Owned, Solid, Wrote, MapLogged, InodeLogged, Transacted, Grew;
      ghost var s0 := Now();
      logged := {};
      ghost var before := Now();
      r, leak := Writei(i, src, off, n);
      GrewNone(s0, {}, i);
      GrewMore(s0, before, Now(), i);
      if r == -1 {
        leak := 0;
        Refused(s0, Now(), i, off, n, src);
      } else {
        ChunkFits(s0, before, Now(), i, off, n, src, r, leak);
        JournalWrite(bmapstart, inodestart, s0, before, Now(), i, off, n, src, r, leak);
      }
    }
  }

  /** The block that took bytes without being logged, if any did. */
  function Leaked(img: Image, i: nat, o: nat, leak: nat): set<nat>
    requires Shaped(img) && i < |img.inodes| && o <= MAXFILE * BSIZE
  {
    if leak == 0 || o == MAXFILE * BSIZE then {} else Used(img, i, o / BSIZE)
  }

  /** The same for a transaction that reported `r`. */
  function LeakedBy(img: Image, i: nat, off: nat, r: int, leak: nat): set<nat> {
    if r < 0 || leak == 0 || off + r >= MAXFILE * BSIZE || !Shaped(img) || i >= |img.inodes| then {}
    else Used(img, i, (off + r) / BSIZE)
  }

  /** Why a write stops early: the disk has no block for the next byte, or the
      source ran out.  It always stops at a block boundary of the file or where
      it began, and the source bytes past that point that could be read are the
      leaked ones. */
  predicate Stopped(s: Snap, t: Snap, i: nat, off: nat, n: nat, avail: nat, tot: nat, leak: nat) {
    && (tot == 0 || (off + tot) % BSIZE == 0)
    && (off + tot) % BSIZE + leak < BSIZE
    && Shaped(t.img) && i < |t.img.inodes| && off + tot < MAXFILE * BSIZE
    && if Affords(s, i, off, tot + 1) then avail < n && tot + leak == avail
       else leak == 0 && Slot(t.img, i, (off + tot) / BSIZE) == 0 && Full(t.bits)
  }

  /** How far a write came, given the free blocks it found; one that came to its
      end took exactly the blocks the file was missing. */
  predicate Spent(s: Snap, t: Snap, i: nat, off: nat, n: nat, avail: nat, tot: nat, leak: nat) {
    && Affords(s, i, off, tot)
    && (tot < n ==> Stopped(s, t, i, off, n, avail, tot, leak))
    && (tot == n ==> Budget(s, t, i, off / BSIZE, EndBlock(off, n)))
  }

  /** What a call of `writei` that reports `tot` of `n` bytes did: the file is
      its old contents with those bytes written over them, and `leak` further
      source bytes that a failing copy left in the last block; nothing else in
      any file changed; every changed block was logged, except the one that
      took the `leak` bytes; and a short enough write fits one log reservation. */
  predicate Wrote(s: Snap, t: Snap, i: nat, off: nat, n: nat, src: seq<byte>, tot: nat, leak: nat) {
    && Solid(s.img) && Solid(t.img) && |t.img.inodes| == |s.img.inodes| && i < |s.img.inodes|
    && off <= s.img.inodes[i].size && off + n <= MAXFILE * BSIZE
    && tot <= n && tot + leak <= |src|
    && (leak > 0 ==> tot + leak == |src| < n)
    && Spent(s, t, i, off, n, |src|, tot, leak)
    && Content(t.img, i) == Splice(Content(s.img, i), off, src[..tot + leak])[..Max(s.img.inodes[i].size, off + tot)]
    && (forall j | 0 <= j < |s.img.inodes| && j != i :: Content(t.img, j) == Content(s.img, j))
    && Logs(s, t, Leaked(t.img, i, off + tot, leak))
    && (n <= CHUNK ==> |(t.logged + Leaked(t.img, i, off + tot, leak)) - s.logged| <= MAXOPBLOCKS)
  }

  function Max(a: nat, b: nat): nat {
    if a < b then b else a
  }

  /** What `bmap` promises about slot `k` of inode `i`. */
  predicate BmapDone(nmeta: nat, s: Snap, t: Snap, i: nat, k: nat, addr: nat, bm: set<nat>) {
    && Owned(nmeta, t.bits, t.img, t.owner)
    && Mapped(s.img, t.img, s.owner, i, k)
    && Accounted(s.logged, t.logged, bm, s.img, t.img, i, k)
    && addr == Slot(t.img, i, k)
    && (addr == 0 ==> Full(t.bits))
    && (Slot(s.img, i, k) != 0 ==> t == s)
    && (Slot(s.img, i, k) == 0 && addr != 0 ==> addr < |t.img.blocks| && t.img.blocks[addr] == Zeroed())
    && Logs(s, t, {})
  }

  /** Every block whose contents changed was given to `log_write`, except those in `but`. */
  predicate Logs(s: Snap, t: Snap, but: set<nat>) {
    && s.logged <= t.logged && |t.img.blocks| == |s.img.blocks|
    && forall b | 0 <= b < |s.img.blocks| && t.img.blocks[b] != s.img.blocks[b] :: b in t.logged + but
  }

  /** The bitmap block of every bit that changed, and every block that was given
      out, went to `log_write`. */
  predicate MapLogged(bmapstart: nat, s: Snap, t: Snap) {
    && |t.bits| == |s.bits| && s.logged <= t.logged && NewLogged(s, t)
    && forall b | 0 <= b < |s.bits| && t.bits[b] != s.bits[b] :: b / BPB + bmapstart in t.logged
  }

  /** A block that has an owner it did not have went to `log_write`. */
  predicate NewLogged(s: Snap, t: Snap) {
    forall b | b in t.owner && (b !in s.owner || s.owner[b] != t.owner[b]) :: b in t.logged
  }

  /** No inode but `i` changed, and its block `x` was given to `log_write`. */
  predicate InodeLogged(s: Snap, t: Snap, i: nat, x: nat) {
    OthersSame(s.img, t.img, i) && x in t.logged
  }

  /** Every disk block that holds something that changed was given to
      `log_write`: data and indirect blocks, bitmap blocks, inode blocks; and so
      was every block given out. */
  predicate Journaled(bmapstart: nat, inodestart: nat, s: Snap, t: Snap) {
    JournaledBut(bmapstart, inodestart, s, t, {})
  }

  /** The same, the blocks in `but` aside. */
  predicate JournaledBut(bmapstart: nat, inodestart: nat, s: Snap, t: Snap, but: set<nat>) {
    && |t.bits| == |s.bits| && |t.img.blocks| == |s.img.blocks| && |t.img.inodes| == |s.img.inodes| && NewLogged(s, t)
    && (forall b | 0 <= b < |s.bits| && t.bits[b] != s.bits[b] :: b / BPB + bmapstart in t.logged)
    && (forall b | 0 <= b < |s.img.blocks| && b !in but && t.img.blocks[b] != s.img.blocks[b] :: b in t.logged)
    && (forall j | 0 <= j < |s.img.inodes| && t.img.inodes[j] != s.img.inodes[j] :: j / IPB + inodestart in t.logged)
  }

  lemma MapLoggedNone(bmapstart: nat, s: Snap)
    ensures MapLogged(bmapstart, s, s)
  {
  }

  lemma MapLoggedMore(bmapstart: nat, s: Snap, m: Snap, t: Snap)
    requires MapLogged(bmapstart, s, m) && MapLogged(bmapstart, m, t)
    ensures MapLogged(bmapstart, s, t)
  {
  }

  lemma MapLoggedSame(bmapstart: nat, s: Snap, m: Snap, t: Snap)
    requires MapLogged(bmapstart, s, m) && t.bits == m.bits && m.logged <= t.logged && t.owner == m.owner
    ensures MapLogged(bmapstart, s, t)
  {
  }

  predicate MoreBits(bits: seq<bool>, bits': seq<bool>) {
    |bits'| == |bits| && forall b | 0 <= b < |bits| && bits[b] :: bits'[b]
  }

  /** No block below this one is free. */
  predicate UsedBelow(bits: seq<bool>, b: nat) {
    forall c | 0 <= c < b && c < |bits| :: bits[c]
  }

  /** Inode `i` may have been given further blocks, the lowest that were free, and
      nothing changed but it and its blocks. */
  predicate Grew(s: Snap, t: Snap, i: nat) {
    && MoreBits(s.bits, t.bits) && (forall b | b in t.owner && b !in s.owner :: UsedBelow(t.bits, b))
    && OthersSame(s.img, t.img, i) && |t.img.blocks| == |s.img.blocks|
    && (forall b | b in s.owner :: b in t.owner && t.owner[b] == s.owner[b])
    && (forall b | b in t.owner && b !in s.owner :: t.owner[b].inum == i)
    && (forall b | 0 <= b < |s.img.blocks| && !(b in t.owner && t.owner[b].inum == i) :: t.img.blocks[b] == s.img.blocks[b])
  }

  /** Inode `i` has lost its blocks, and nothing changed but it. */
  predicate Shrunk(s: Snap, t: Snap, i: nat) {
    OthersSame(s.img, t.img, i) && t.img.blocks == s.img.blocks && t.owner == Without(s.owner, i)
  }

  lemma GrewNone(s: Snap, logged: set<nat>, i: nat)
    ensures Grew(s, s.(logged := logged), i)
  {
  }

  lemma GrewMore(s: Snap, m: Snap, t: Snap, i: nat)
    requires Grew(s, m, i) && Grew(m, t, i)
    ensures Grew(s, t, i)
  {
  }

  lemma GrewSame(s: Snap, m: Snap, t: Snap, i: nat)
    requires Grew(s, m, i) && t.owner == m.owner && t.bits == m.bits && t.img.blocks == m.img.blocks && OthersSame(m.img, t.img, i)
    ensures Grew(s, t, i)
  {
  }

  lemma GrewAddr(s: Snap, i: nat, a: nat, b: nat, x: nat)
    requires i < |s.img.inodes| && a < |s.img.inodes[i].addrs| && b < |s.img.blocks| == |s.bits| && b !in s.owner
    requires UsedBelow(s.bits, b)
    ensures Grew(s, Snap(s.bits[b := true], WithAddr(WithBlock(s.img, b, Zeroed()), i, a, b),
                         s.logged + {x, b}, s.owner[b := Ref(i, AddrSlot(a))]), i)
  {
  }

  lemma GrewEntry(nmeta: nat, s: Snap, i: nat, e: nat, b: nat, x: nat)
    requires Owned(nmeta, s.bits, s.img, s.owner) && i < |s.img.inodes| && e < NINDIRECT
    requires Slot(s.img, i, INDIRECT) != 0 && b < |s.img.blocks| && !s.bits[b] && UsedBelow(s.bits, b)
    ensures Grew(s, Snap(s.bits[b := true], WithEntry(WithBlock(s.img, b, Zeroed()), i, e, b),
                         s.logged + {x, b} + {s.img.inodes[i].addrs[NDIRECT]}, s.owner[b := Ref(i, NDIRECT + e)]), i)
  {
    hide PutWord, Zeroed;
    var ind := s.img.inodes[i].addrs[NDIRECT];
    assert Slot(s.img, i, INDIRECT) == ind && ind in s.owner && s.owner[ind] == Ref(i, INDIRECT);
  }

  /** Storing into a block of the inode. */
  lemma GrewStored(nmeta: nat, s: Snap, m: Snap, t: Snap, i: nat, k: nat, addr: nat, bm: set<nat>)
    requires Grew(s, m, i) && BmapDone(nmeta, s, m, i, k, addr, bm) && addr != 0 && i < |s.img.inodes|
    requires t.owner == m.owner && t.bits == m.bits && t.img.inodes == m.img.inodes && |t.img.blocks| == |m.img.blocks|
    requires forall b | 0 <= b < |m.img.blocks| && b != addr :: t.img.blocks[b] == m.img.blocks[b]
    ensures Grew(s, t, i)
  {
    assert Slot(m.img, i, k) in m.owner && m.owner[Slot(m.img, i, k)] == Ref(i, k);
  }

  lemma BmapFound(nmeta: nat, s: Snap, i: nat, k: nat)
    requires Owned(nmeta, s.bits, s.img, s.owner) && i < |s.img.inodes| && k <= INDIRECT && Slot(s.img, i, k) != 0
    ensures BmapDone(nmeta, s, s, i, k, Slot(s.img, i, k), {}) && Took(s, s, i, k) && Grew(s, s, i)
  {
  }

  lemma BmapFull(nmeta: nat, s: Snap, i: nat, k: nat)
    requires Owned(nmeta, s.bits, s.img, s.owner) && i < |s.img.inodes| && k <= INDIRECT && Slot(s.img, i, k) == 0
    requires Full(s.bits)
    ensures BmapDone(nmeta, s, s, i, k, 0, {}) && Took(s, s, i, k) && Grew(s, s, i)
  {
    NoneFree(s.bits);
  }

  lemma BmapAddr(nmeta: nat, s: Snap, i: nat, a: nat, b: nat, x: nat)
    requires Owned(nmeta, s.bits, s.img, s.owner) && i < |s.img.inodes| && a <= NDIRECT
    requires Slot(s.img, i, AddrSlot(a)) == 0 && b < |s.bits| && !s.bits[b] && UsedBelow(s.bits, b)
    ensures b !in s.owner
    ensures var t := Snap(s.bits[b := true], WithAddr(WithBlock(s.img, b, Zeroed()), i, a, b),
                          s.logged + {x, b}, s.owner[b := Ref(i, AddrSlot(a))]);
            BmapDone(nmeta, s, t, i, AddrSlot(a), b, {x}) && Took(s, t, i, AddrSlot(a)) && Grew(s, t, i)
  {
    hide Grew, FreeCount, SlotsOwned;
    GrewAddr(s, i, a, b, x);
    TakeOne(s.bits, b);
    AllocatedAddr(nmeta, s.bits, s.img, s.owner, i, a, b);
  }

  lemma BmapEntry(nmeta: nat, s: Snap, i: nat, e: nat, b: nat, x: nat)
    requires Owned(nmeta, s.bits, s.img, s.owner) && i < |s.img.inodes| && e < NINDIRECT
    requires Slot(s.img, i, INDIRECT) != 0 && Slot(s.img, i, NDIRECT + e) == 0 && b < |s.bits| && !s.bits[b]
    requires UsedBelow(s.bits, b)
    ensures var t := Snap(s.bits[b := true], WithEntry(WithBlock(s.img, b, Zeroed()), i, e, b),
                          s.logged + {x, b} + {s.img.inodes[i].addrs[NDIRECT]}, s.owner[b := Ref(i, NDIRECT + e)]);
            BmapDone(nmeta, s, t, i, NDIRECT + e, b, {x}) && Took(s, t, i, NDIRECT + e) && Grew(s, t, i)
  {
    hide Grew, FreeCount, SlotsOwned;
    GrewEntry(nmeta, s, i, e, b, x);
    TakeOne(s.bits, b);
    AllocatedEntry(nmeta, s.bits, s.img, s.owner, i, e, b);
  }

  lemma BmapGives(nmeta: nat, s: Snap, t: Snap, i: nat, k: nat, addr: nat, bm: set<nat>)
    requires BmapDone(nmeta, s, t, i, k, addr, bm) && i < |s.img.inodes|
    ensures Shaped(t.img) && |t.img.inodes| == |s.img.inodes| && addr == Slot(t.img, i, k) && (addr == 0 ==> Full(t.bits))
  {
  }

  lemma NoIndirect(nmeta: nat, s: Snap, t: Snap, i: nat, k: nat, bm: set<nat>)
    requires BmapDone(nmeta, s, t, i, INDIRECT, 0, bm) && NDIRECT <= k < INDIRECT
    ensures BmapDone(nmeta, s, t, i, k, 0, bm)
  {
  }

  /** The indirect block was loaded and then the entry was. */
  lemma ThenEntry(nmeta: nat, s: Snap, m: Snap, t: Snap, i: nat, k: nat, ind: nat, addr: nat, bm: set<nat>, bm2: set<nat>)
    requires BmapDone(nmeta, s, m, i, INDIRECT, ind, bm) && ind != 0
    requires forall b | b in s.owner :: b in m.owner && m.owner[b] == s.owner[b]
    requires NDIRECT <= k < INDIRECT
    requires BmapDone(nmeta, m, t, i, k, addr, bm2)
    ensures BmapDone(nmeta, s, t, i, k, addr, bm + bm2)
  {
    hide Owned, Mapped, Accounted, Full;
    MappedTwice(s.img, m.img, t.img, s.owner, m.owner, i, k);
    AccountedTwice(s.logged, m.logged, t.logged, bm, bm2, s.img, m.img, t.img, m.owner, i, k);
  }

  /** The block in a slot, as a set. */
  function Used(img: Image, i: nat, k: nat): set<nat>
    requires Shaped(img) && i < |img.inodes| && k <= INDIRECT
  {
    if Slot(img, i, k) == 0 then {} else {Slot(img, i, k)}
  }

  /** 1 if the slot was filled between the two images. */
  function New(img: Image, img': Image, i: nat, k: nat): nat
    requires Shaped(img) && Shaped(img') && i < |img.inodes| && i < |img'.inodes| && k <= INDIRECT
  {
    if Slot(img, i, k) == 0 && Slot(img', i, k) != 0 then 1 else 0
  }

  /** Only slot `k` and the indirect slot of inode `i` may have been filled. */
  predicate Mapped(img: Image, img': Image, owner: map<nat, Ref>, i: nat, k: nat) {
    && Grown(img, img', owner)
    && (forall j, m | 0 <= j < |img.inodes| && 0 <= m <= INDIRECT && (j != i || (m != k && m != INDIRECT)) ::
          Slot(img', j, m) == Slot(img, j, m))
    && (forall j | 0 <= j < |img.inodes| && j != i :: img'.inodes[j] == img.inodes[j])
  }

  /** The blocks logged in between are the two slots' blocks and one bitmap
      block for each slot that was filled. */
  predicate Accounted(logged: set<nat>, logged': set<nat>, bm: set<nat>, img: Image, img': Image, i: nat, k: nat) {
    && Shaped(img) && Shaped(img') && i < |img.inodes| && i < |img'.inodes| && k <= INDIRECT
    && logged' <= logged + bm + Used(img', i, k) + Used(img', i, INDIRECT)
    && |bm| <= New(img, img', i, k) + if k == INDIRECT then 0 else New(img, img', i, INDIRECT)
  }

  lemma AccountedTwice(l0: set<nat>, l1: set<nat>, l2: set<nat>, bm: set<nat>, bm2: set<nat>,
                       a: Image, b: Image, c: Image, p: map<nat, Ref>, i: nat, k: nat)
    requires Accounted(l0, l1, bm, a, b, i, INDIRECT) && Accounted(l1, l2, bm2, b, c, i, k) && k < INDIRECT
    requires Mapped(b, c, p, i, k) && Slot(b, i, INDIRECT) != 0 && Slot(a, i, k) == Slot(b, i, k)
    ensures Accounted(l0, l2, bm + bm2, a, c, i, k)
  {
    UnionSize(bm, bm2);
  }

  lemma UnionSize(a: set<nat>, b: set<nat>)
    ensures |a + b| <= |a| + |b|
  {
    assert a + b == a + (b - a);
  }

  lemma MappedTwice(a: Image, b: Image, c: Image, o: map<nat, Ref>, p: map<nat, Ref>, i: nat, k: nat)
    requires Mapped(a, b, o, i, INDIRECT) && Mapped(b, c, p, i, k)
    requires forall x | x in o :: x in p && p[x] == o[x]
    ensures Mapped(a, c, o, i, k)
  {
  }

  // ---------------------------------------------------------------- writei

  /** How many bytes beyond those it reports a write leaves in the file: what the
      caller's arguments and the free map decide before the call.  They leak when
      the readable source ends before `n` bytes, inside a block of the file, and
      there is a disk block for it. */
  function WillLeak(s: Snap, i: nat, off: nat, n: nat, avail: nat): nat {
    if 0 < avail < n && (off + avail) % BSIZE != 0 && Affords(s, i, off, avail)
    then Min(avail, (off + avail) % BSIZE) else 0
  }

  /** A write comes to its end if and only if the source is readable that far and
      the free blocks make up for those the file is missing. */
  lemma AllIff(s: Snap, t: Snap, i: nat, off: nat, n: nat, src: seq<byte>, tot: nat, leak: nat)
    requires Wrote(s, t, i, off, n, src, tot, leak)
    ensures tot == n <==> n <= |src| && Affords(s, i, off, n)
  {
    hide Affords;
    if n <= |src| && Affords(s, i, off, n) && tot < n {
      AffordsLess(s, i, off, tot + 1, n);
    }
  }

  lemma LeakIff(s: Snap, t: Snap, i: nat, off: nat, n: nat, src: seq<byte>, tot: nat, leak: nat)
    requires Wrote(s, t, i, off, n, src, tot, leak)
    ensures leak == WillLeak(s, i, off, n, |src|)
  {
    hide Affords;
    if leak > 0 {
      Inside(off + tot, leak);
      SameEnd(off, tot, leak);
      assert Affords(s, i, off, |src|) by {
        assert Affords(s, i, off, tot + 1);
        EndAffords(s, i, off, tot + 1, |src|);
      }
    } else if 0 < |src| < n && (off + |src|) % BSIZE != 0 && Affords(s, i, off, |src|) {
      if tot < |src| {
        AffordsLess(s, i, off, tot + 1, |src|);
      }
    }
  }

  lemma Inside(o: nat, k: nat)
    requires o % BSIZE + k < BSIZE
    ensures (o + k) % BSIZE == o % BSIZE + k
  {
  }

  lemma SameEnd(off: nat, tot: nat, leak: nat)
    requires (off + tot) % BSIZE + leak < BSIZE && leak > 0
    ensures EndBlock(off, tot + leak) == EndBlock(off, tot + 1)
  {
  }

  lemma EndAffords(s: Snap, i: nat, off: nat, m: nat, n: nat)
    requires Affords(s, i, off, m) && EndBlock(off, m) == EndBlock(off, n)
    ensures Affords(s, i, off, n)
  {
  }

  /** A write changes exactly the bytes it reports if and only if each byte that
      will leak beyond them lies past the end of the file or repeats what was
      there. */
  lemma ExactIff(s: Snap, t: Snap, i: nat, off: nat, n: nat, src: seq<byte>, tot: nat, leak: nat)
    requires Wrote(s, t, i, off, n, src, tot, leak)
    ensures Content(t.img, i) == Splice(Content(s.img, i), off, src[..tot])
            <==> forall k | |src| - WillLeak(s, i, off, n, |src|) <= k < |src| && off + k < s.img.inodes[i].size ::
                   src[k] == Content(s.img, i)[off + k]
  {
    LeakIff(s, t, i, off, n, src, tot, leak);
    ExactBytes(Content(s.img, i), off, src, tot, leak);
  }

  lemma ExactBytes(was: seq<byte>, off: nat, src: seq<byte>, tot: nat, leak: nat)
    requires off <= |was| && tot + leak <= |src|
    ensures Splice(was, off, src[..tot + leak])[..Max(|was|, off + tot)] == Splice(was, off, src[..tot])
            <==> forall k | tot <= k < tot + leak && off + k < |was| :: src[k] == was[off + k]
  {
    var a := Splice(was, off, src[..tot + leak])[..Max(|was|, off + tot)];
    var b := Splice(was, off, src[..tot]);
    assert forall k | tot <= k < tot + leak && off + k < |was| :: a[off + k] == src[k] && b[off + k] == was[off + k];
    if forall k | tot <= k < tot + leak && off + k < |was| :: src[k] == was[off + k] {
      forall o | 0 <= o < |b| ensures a[o] == b[o] {
        if off + tot <= o < off + tot + leak {
          assert src[o - off] == was[o];
        }
      }
    }
  }

  /** On a disk laid out as mkfs does it: a file of two bytes, and a write of two bytes
      over them of whose source only the first can be read.  The call reports
      that nothing was written, and the first byte of the file has changed. */
  method LeakExample() returns (was: seq<byte>, ret: int, now: seq<byte>)
    ensures was == [1, 2] && ret == 0 && now == [9, 2]
  {
    hide Owned, Solid, Grew, MapLogged, InodeLogged, Wrote, Slot, FreeCount, Cost;
    var fs := new Fs(46, 32, 45, 2000, 200);
    ghost var s0 := fs.Now();
    SpaceLeft(fs.bits, 46);
    SoundGives(fs.nmeta, fs.bits, fs.img, fs.owner);
    CostOne(fs.img, 2, 0);
    var r;
    ghost var leak;
    r, leak := fs.Writei(2, [1, 2], 0, 2);
    ghost var s1 := fs.Now();
    FirstBytes(s0, s1, r, leak);
    r, was := fs.Readi(2, 0, 2, 2);
    ret, leak := fs.Writei(2, [9], 0, 2);
    SecondBytes(s1, fs.Now(), ret, leak);
    r, now := fs.Readi(2, 0, 2, 2);
  }

  lemma SpaceLeft(bits: seq<bool>, b: nat)
    requires b < |bits| && !bits[b]
    ensures FreeCount(bits) >= 1
  {
    NoneFree(bits);
  }

  lemma FirstBytes(s: Snap, t: Snap, r: nat, leak: nat)
    requires Wrote(s, t, 2, 0, 2, [1, 2], r, leak) && s.img.inodes[2].size == 0
    requires Cost(s.img, 2, 0, 1) <= FreeCount(s.bits)
    ensures |t.img.inodes| == |s.img.inodes| && SizesFit(t.img) && Content(t.img, 2) == [1, 2] && Slot(t.img, 2, 0) != 0
  {
    AllIff(s, t, 2, 0, 2, [1, 2], r, leak);
    assert Content(s.img, 2) == [];
    assert [1, 2][..2] == [1, 2];
  }

  lemma SecondBytes(s: Snap, t: Snap, r: nat, leak: nat)
    requires Wrote(s, t, 2, 0, 2, [9], r, leak) && Content(s.img, 2) == [1, 2] && Slot(s.img, 2, 0) != 0
    ensures |t.img.inodes| == |s.img.inodes| && r == 0 && SizesFit(t.img) && Content(t.img, 2) == [9, 2]
  {
    CostOne(s.img, 2, 0);
    LeakIff(s, t, 2, 0, 2, [9], r, leak);
    assert Splice([1, 2], 0, [9][..1]) == [9, 2];
  }

  predicate KeptSlots(img: Image, img': Image) {
    && Shaped(img) && Shaped(img') && |img'.inodes| == |img.inodes| && |img'.blocks| == |img.blocks|
    && (forall j | 0 <= j < |img.inodes| :: img'.inodes[j].size == img.inodes[j].size)
    && (forall j, m | 0 <= j < |img.inodes| && 0 <= m <= INDIRECT && Slot(img, j, m) != 0 ::
          Slot(img', j, m) == Slot(img, j, m))
  }

  predicate OthersSame(img: Image, img': Image, i: nat) {
    |img'.inodes| == |img.inodes| && forall j | 0 <= j < |img.inodes| && j != i :: img'.inodes[j] == img.inodes[j]
  }

  /** Every byte that had a block keeps its value, except the given range of file `i`. */
  predicate KeptBytes(img: Image, img': Image, i: nat, off: nat, n: nat) {
    && Shaped(img) && Shaped(img') && |img'.inodes| == |img.inodes|
    && forall j, o | 0 <= j < |img.inodes| && 0 <= o < MAXFILE * BSIZE && Slot(img, j, o / BSIZE) != 0
         && (j != i || o < off || off + n <= o) :: ByteAt(img', j, o) == ByteAt(img, j, o)
  }

  predicate HasBytes(img: Image, i: nat, off: nat, data: seq<byte>) {
    && Shaped(img) && i < |img.inodes| && off + |data| <= MAXFILE * BSIZE
    && forall o | off <= o < off + |data| :: ByteAt(img, i, o) == data[o - off]
  }

  /** One pass of the loop of `writei`: the block was mapped, and if that
      succeeded `data` went into it. */
  predicate ChunkDone(nmeta: nat, s: Snap, t: Snap, i: nat, off: nat, data: seq<byte>, bm: set<nat>, but: set<nat>) {
    && Owned(nmeta, t.bits, t.img, t.owner)
    && KeptSlots(s.img, t.img) && OthersSame(s.img, t.img, i) && i < |s.img.inodes| && off < MAXFILE * BSIZE
    && Accounted(s.logged, t.logged, bm, s.img, t.img, i, off / BSIZE)
    && KeptBytes(s.img, t.img, i, off, |data|)
    && (if Slot(t.img, i, off / BSIZE) == 0 then Full(t.bits) else HasBytes(t.img, i, off, data))
    && Logs(s, t, but)
  }

  lemma MappedKeeps(nmeta: nat, s: Snap, m: Snap, i: nat, k: nat, addr: nat, bm: set<nat>)
    requires Owned(nmeta, s.bits, s.img, s.owner) && BmapDone(nmeta, s, m, i, k, addr, bm)
    ensures KeptSlots(s.img, m.img) && KeptBytes(s.img, m.img, i, 0, 0) && OthersSame(s.img, m.img, i)
  {
    forall j, o | 0 <= j < |s.img.inodes| && 0 <= o < MAXFILE * BSIZE && Slot(s.img, j, o / BSIZE) != 0
      ensures ByteAt(m.img, j, o) == ByteAt(s.img, j, o)
    {
      GrownBytes(nmeta, s.bits, s.img, m.img, s.owner, j, o);
    }
  }

  /** The disk was full. */
  lemma ChunkNone(nmeta: nat, s: Snap, m: Snap, i: nat, off: nat, bm: set<nat>)
    requires Owned(nmeta, s.bits, s.img, s.owner) && i < |s.img.inodes| && off < MAXFILE * BSIZE
    requires BmapDone(nmeta, s, m, i, off / BSIZE, 0, bm)
    ensures ChunkDone(nmeta, s, m, i, off, [], bm, {})
  {
    MappedKeeps(nmeta, s, m, i, off / BSIZE, 0, bm);
  }

  /** The block was mapped and then patched; `log` says if it was logged. */
  lemma ChunkStored(nmeta: nat, s: Snap, m: Snap, i: nat, off: nat, data: seq<byte>, addr: nat, bm: set<nat>, log: bool)
    requires Owned(nmeta, s.bits, s.img, s.owner) && i < |s.img.inodes| && off < MAXFILE * BSIZE
    requires off % BSIZE + |data| <= BSIZE
    requires BmapDone(nmeta, s, m, i, off / BSIZE, addr, bm) && addr != 0
    ensures addr < |m.img.blocks| && SameSlots(m.img, WithBlock(m.img, addr, Patch(m.img.blocks[addr], off % BSIZE, data)))
    ensures var t := m.(img := WithBlock(m.img, addr, Patch(m.img.blocks[addr], off % BSIZE, data)),
                        logged := if log then m.logged + {addr} else m.logged);
            ChunkDone(nmeta, s, t, i, off, data, bm, if log || data == [] then {} else {addr})
  {
    hide SlotsOwned, OwnersHold, Mapped, Accounted, KeptBytes, KeptSlots, HasBytes;
    MappedKeeps(nmeta, s, m, i, off / BSIZE, addr, bm);
    ChunkBytes(nmeta, m.bits, m.img, m.owner, i, off, data);
    var t := m.(img := WithBlock(m.img, addr, Patch(m.img.blocks[addr], off % BSIZE, data)),
                logged := if log then m.logged + {addr} else m.logged);
    SameSlotsOwned(nmeta, m.bits, m.img, t.img, m.owner);
    InsideFile(off, |data|);
    if data == [] {
      assert Patch(m.img.blocks[addr], off % BSIZE, data) == m.img.blocks[addr];
    }
    ChunkKept(s, m, t, i, off, data);
    ChunkAccounted(s, m, t, i, off / BSIZE, addr, bm);
  }

  lemma InsideFile(off: nat, n: nat)
    requires off < MAXFILE * BSIZE && off % BSIZE + n <= BSIZE
    ensures off + n <= MAXFILE * BSIZE
  {
  }

  lemma ChunkKept(s: Snap, m: Snap, t: Snap, i: nat, off: nat, data: seq<byte>)
    requires KeptSlots(s.img, m.img) && KeptBytes(s.img, m.img, i, 0, 0) && i < |s.img.inodes|
    requires SameSlots(m.img, t.img) && off + |data| <= MAXFILE * BSIZE
    requires forall j | 0 <= j < |s.img.inodes| :: t.img.inodes[j].size == m.img.inodes[j].size
    requires forall j, o | 0 <= j < |m.img.inodes| && 0 <= o < MAXFILE * BSIZE ::
               ByteAt(t.img, j, o) == if j == i && off <= o < off + |data| then data[o - off] else ByteAt(m.img, j, o)
    ensures KeptSlots(s.img, t.img) && KeptBytes(s.img, t.img, i, off, |data|) && HasBytes(t.img, i, off, data)
  {
    forall j, o | 0 <= j < |s.img.inodes| && 0 <= o < MAXFILE * BSIZE && Slot(s.img, j, o / BSIZE) != 0
      && (j != i || o < off || off + |data| <= o)
      ensures ByteAt(t.img, j, o) == ByteAt(s.img, j, o)
    {
      assert ByteAt(m.img, j, o) == ByteAt(s.img, j, o);
    }
  }

  lemma ChunkAccounted(s: Snap, m: Snap, t: Snap, i: nat, k: nat, addr: nat, bm: set<nat>)
    requires Accounted(s.logged, m.logged, bm, s.img, m.img, i, k) && SameSlots(m.img, t.img)
    requires addr == Slot(m.img, i, k) != 0 && t.logged <= m.logged + {addr}
    ensures Accounted(s.logged, t.logged, bm, s.img, t.img, i, k)
  {
  }

  /** Every block the write has reached is allocated. */
  predicate Reached(img: Image, i: nat, off: nat, n: nat) {
    && Shaped(img) && i < |img.inodes|
    && forall k | off / BSIZE <= k < MAXFILE && k * BSIZE < off + n :: Slot(img, i, k) != 0
  }

  /** The loop of `writei` has stored `done` since state `s`. */
  predicate Progress(nmeta: nat, s: Snap, t: Snap, i: nat, off: nat, done: seq<byte>, but: set<nat>) {
    && Owned(nmeta, t.bits, t.img, t.owner)
    && KeptSlots(s.img, t.img) && OthersSame(s.img, t.img, i)
    && Written(s.img, t.img, i, off, done)
    && Reached(t.img, i, off, |done|)
    && Logs(s, t, but)
  }

  /** `passes` passes of the loop have logged at most these blocks: one data
      block a pass, one bitmap block for each block allocated, the indirect
      block.  A first pass in the middle of a block allocates nothing. */
  predicate Tally(s: Snap, t: Snap, i: nat, off: nat, passes: nat, data: set<nat>, bm: set<nat>) {
    && Shaped(s.img) && Shaped(t.img) && i < |s.img.inodes| && i < |t.img.inodes|
    && |data| <= passes
    && |bm| <= New(s.img, t.img, i, INDIRECT) + (if off % BSIZE == 0 || passes == 0 then passes else passes - 1)
    && t.logged <= s.logged + data + bm + Used(t.img, i, INDIRECT)
  }

  lemma TallyStep(s: Snap, m: Snap, t: Snap, i: nat, off: nat, o: nat, passes: nat, data: set<nat>, bm: set<nat>, bm2: set<nat>)
    requires Tally(s, m, i, off, passes, data, bm) && o < MAXFILE * BSIZE
    requires KeptSlots(s.img, m.img) && KeptSlots(m.img, t.img)
    requires Accounted(m.logged, t.logged, bm2, m.img, t.img, i, o / BSIZE)
    requires passes == 0 && off % BSIZE != 0 ==> Slot(m.img, i, o / BSIZE) != 0
    ensures Tally(s, t, i, off, passes + 1, data + Used(t.img, i, o / BSIZE), bm + bm2)
  {
    UnionSize(bm, bm2);
    UnionSize(data, Used(t.img, i, o / BSIZE));
  }

  lemma ProgressStep(nmeta: nat, s: Snap, m: Snap, t: Snap, i: nat, off: nat, done: seq<byte>, chunk: seq<byte>,
                     bm: set<nat>, but: set<nat>)
    requires Solid(s.img) && Progress(nmeta, s, m, i, off, done, {})
    requires off + |done| < MAXFILE * BSIZE && (off + |done|) % BSIZE + |chunk| <= BSIZE
    requires ChunkDone(nmeta, m, t, i, off + |done|, chunk, bm, but)
    requires Slot(t.img, i, (off + |done|) / BSIZE) != 0
    ensures Progress(nmeta, s, t, i, off, done + chunk, but)
  {
    hide Owned, Slot, Written, Reached, KeptBytes, HasBytes, Accounted, Solid;
    StepWritten(s, m, t, i, off, done, chunk);
    StepReached(m, t, i, off, |done|, |chunk|);
  }

  lemma StepReached(m: Snap, t: Snap, i: nat, off: nat, n: nat, c: nat)
    requires Reached(m.img, i, off, n) && KeptSlots(m.img, t.img)
    requires off + n < MAXFILE * BSIZE && (off + n) % BSIZE + c <= BSIZE
    requires Slot(t.img, i, (off + n) / BSIZE) != 0
    ensures Reached(t.img, i, off, n + c)
  {
    forall k | off / BSIZE <= k < MAXFILE && k * BSIZE < off + (n + c) ensures Slot(t.img, i, k) != 0 {
      if k * BSIZE < off + n {
        assert Slot(m.img, i, k) != 0;
      } else {
        assert k == (off + n) / BSIZE;
      }
    }
  }

  lemma StepWritten(s: Snap, m: Snap, t: Snap, i: nat, off: nat, done: seq<byte>, chunk: seq<byte>)
    requires Solid(s.img) && KeptSlots(s.img, m.img) && KeptSlots(m.img, t.img)
    requires Written(s.img, m.img, i, off, done) && Reached(m.img, i, off, |done|)
    requires off + |done| + |chunk| <= MAXFILE * BSIZE
    requires KeptBytes(m.img, t.img, i, off + |done|, |chunk|) && HasBytes(t.img, i, off + |done|, chunk)
    ensures Written(s.img, t.img, i, off, done + chunk)
  {
    forall o | off <= o < off + |done| ensures ByteAt(t.img, i, o) == ByteAt(m.img, i, o) {
      assert Slot(m.img, i, o / BSIZE) != 0;
    }
    forall j, o | 0 <= j < |s.img.inodes| && 0 <= o < s.img.inodes[j].size
      && (j != i || o < off + |done| || off + |done| + |chunk| <= o)
      ensures ByteAt(t.img, j, o) == ByteAt(m.img, j, o)
    {
      assert Slot(s.img, j, o / BSIZE) != 0;
    }
    WrittenMore(s.img, m.img, t.img, i, off, done, chunk);
  }

  lemma ProgressStart(nmeta: nat, s: Snap, i: nat, off: nat)
    requires Owned(nmeta, s.bits, s.img, s.owner) && Solid(s.img) && i < |s.img.inodes| && off <= s.img.inodes[i].size
    ensures Progress(nmeta, s, s, i, off, [], {}) && Tally(s, s, i, off, 0, {}, {})
  {
    forall k | off / BSIZE <= k < MAXFILE && k * BSIZE < off ensures Slot(s.img, i, k) != 0 {
    }
  }

  /** The state of the loop of `writei` between two passes. */
  predicate LoopAt(nmeta: nat, s: Snap, t: Snap, i: nat, off: nat, n: nat, src: seq<byte>,
                   going: bool, tot: nat, leak: nat, passes: nat, data: set<nat>, bm: set<nat>) {
    && tot <= n && tot + leak <= |src| && off + n <= MAXFILE * BSIZE
    && Solid(s.img) && i < |s.img.inodes| && off <= s.img.inodes[i].size && Shaped(t.img) && i < |t.img.inodes|
    && Progress(nmeta, s, t, i, off, src[..tot + leak], Leaked(t.img, i, off + tot, leak))
    && Tally(s, t, i, off, passes, data, bm)
    && Leaked(t.img, i, off + tot, leak) <= data
    && (passes == 0 ==> tot == 0)
    && (going ==> leak == 0)
    && (leak > 0 ==> tot + leak == |src| < n)
  }

  /** Its passes, and the space it has taken. */
  predicate SpaceAt(s: Snap, t: Snap, i: nat, off: nat, n: nat, avail: nat, going: bool, tot: nat, leak: nat, passes: nat) {
    && tot <= n && tot + leak <= avail && off + n <= MAXFILE * BSIZE
    && Passes(off, n, tot, passes, going)
    && Affords(s, i, off, tot)
    && (going ==> leak == 0 && Budget(s, t, i, off / BSIZE, off / BSIZE + passes))
    && (!going ==> tot < n && Stopped(s, t, i, off, n, avail, tot, leak))
  }

  /** Each pass but the last ends at a block boundary. */
  predicate Passes(off: nat, n: nat, tot: nat, passes: nat, going: bool) {
    && (passes == 0 ==> tot == 0)
    && (going && tot < n ==> (off + tot) / BSIZE == off / BSIZE + passes && (passes > 0 ==> (off + tot) % BSIZE == 0))
    && (going ==> EndBlock(off, tot) == off / BSIZE + passes)
    && (passes > 0 ==> (off / BSIZE + passes - 1) * BSIZE < off + n)
  }

  /** How many of the bytes left go into the block at hand. */
  function Want(off: nat, n: nat, tot: nat): nat
    requires tot <= n
  {
    if n - tot < BSIZE - (off + tot) % BSIZE then n - tot else BSIZE - (off + tot) % BSIZE
  }

  function Got(off: nat, n: nat, tot: nat, avail: nat): nat
    requires tot <= n && tot <= avail
  {
    if avail - tot < Want(off, n, tot) then avail - tot else Want(off, n, tot)
  }

  lemma WantGot(off: nat, n: nat, tot: nat, avail: nat)
    requires tot < n && tot <= avail
    ensures var want, got := Want(off, n, tot), Got(off, n, tot, avail);
            && 0 < want <= n - tot && (off + tot) % BSIZE + want <= BSIZE
            && got <= want && tot + got <= avail && (got < want ==> tot + got == avail)
  {
  }

  lemma PassesMore(off: nat, n: nat, tot: nat, passes: nat)
    requires Passes(off, n, tot, passes, true) && tot < n
    ensures Passes(off, n, tot + Want(off, n, tot), passes + 1, true)
    ensures Passes(off, n, tot, passes + 1, false)
    ensures tot == 0 || (off + tot) % BSIZE == 0
    ensures EndBlock(off, tot + 1) == (off + tot) / BSIZE + 1 == EndBlock(off, tot + Want(off, n, tot))
  {
    assert (off + tot) / BSIZE * BSIZE <= off + tot;
  }

  lemma LoopStart(nmeta: nat, s: Snap, i: nat, off: nat, n: nat, src: seq<byte>)
    requires Owned(nmeta, s.bits, s.img, s.owner) && Solid(s.img) && i < |s.img.inodes| && off <= s.img.inodes[i].size
    requires off + n <= MAXFILE * BSIZE
    ensures LoopAt(nmeta, s, s, i, off, n, src, true, 0, 0, 0, {}, {})
  {
    ProgressStart(nmeta, s, i, off);
    assert src[..0] == [];
  }

  lemma LoopGives(nmeta: nat, s: Snap, t: Snap, i: nat, off: nat, n: nat, src: seq<byte>,
                  going: bool, tot: nat, leak: nat, passes: nat, data: set<nat>, bm: set<nat>)
    requires LoopAt(nmeta, s, t, i, off, n, src, going, tot, leak, passes, data, bm)
    ensures Owned(nmeta, t.bits, t.img, t.owner) && Shaped(t.img)
    ensures tot + leak <= |src| && (leak > 0 ==> tot + leak == |src| < n) && (going ==> leak == 0)
    ensures Progress(nmeta, s, t, i, off, src[..tot + leak], Leaked(t.img, i, off + tot, leak))
    ensures Tally(s, t, i, off, passes, data, bm) && Leaked(t.img, i, off + tot, leak) <= data
  {
  }

  lemma SpaceStart(s: Snap, i: nat, off: nat, n: nat, avail: nat)
    requires Shaped(s.img) && i < |s.img.inodes| && off + n <= MAXFILE * BSIZE
    ensures SpaceAt(s, s, i, off, n, avail, true, 0, 0, 0)
  {
    BudgetStart(s, i, off / BSIZE);
  }

  lemma SpaceGives(s: Snap, t: Snap, i: nat, off: nat, n: nat, avail: nat, going: bool, tot: nat, leak: nat, passes: nat)
    requires SpaceAt(s, t, i, off, n, avail, going, tot, leak, passes) && !(going && tot < n)
    ensures Spent(s, t, i, off, n, avail, tot, leak)
    ensures passes > 0 ==> (off / BSIZE + passes - 1) * BSIZE < off + n
  {
    hide Budget, Affords, Stopped;
  }

  /** One pass: the block is had exactly when the disk can pay for all the write
      has reached. */
  lemma SpacePass(s: Snap, m: Snap, t: Snap, i: nat, off: nat, n: nat, avail: nat, tot: nat, passes: nat)
    requires SpaceAt(s, m, i, off, n, avail, true, tot, 0, passes) && tot < n
    requires Pays(m, t, i, (off + tot) / BSIZE)
    ensures var k := (off + tot) / BSIZE;
            var want, got := Want(off, n, tot), Got(off, n, tot, avail);
            if Slot(t.img, i, k) != 0 && got == want
            then SpaceAt(s, t, i, off, n, avail, true, tot + want, 0, passes + 1)
            else SpaceAt(s, t, i, off, n, avail, false, tot, if Slot(t.img, i, k) == 0 then 0 else got, passes + 1)
  {
    hide Budget, Affords, Slot, Full, EndBlock, Passes, Pays;
    PassesMore(off, n, tot, passes);
    PassBlock(off, n, tot, passes);
    PassHad(s, m, t, i, off, tot, Want(off, n, tot));
  }

  lemma PassBlock(off: nat, n: nat, tot: nat, passes: nat)
    requires Passes(off, n, tot, passes, true) && tot < n && off + n <= MAXFILE * BSIZE
    ensures (off + tot) / BSIZE == off / BSIZE + passes && off + tot < MAXFILE * BSIZE
  {
  }

  /** The next block is had exactly when the disk can pay for it too. */
  lemma PassHad(s: Snap, m: Snap, t: Snap, i: nat, off: nat, tot: nat, want: nat)
    requires Budget(s, m, i, off / BSIZE, (off + tot) / BSIZE) && Pays(m, t, i, (off + tot) / BSIZE)
    requires EndBlock(off, tot + 1) == (off + tot) / BSIZE + 1 == EndBlock(off, tot + want)
    ensures Shaped(t.img) && i < |t.img.inodes| && (off + tot) / BSIZE < MAXFILE
    ensures Slot(t.img, i, (off + tot) / BSIZE) != 0 <==> Affords(s, i, off, tot + 1)
    ensures Affords(s, i, off, tot + 1) ==> Affords(s, i, off, tot + want) && Budget(s, t, i, off / BSIZE, (off + tot) / BSIZE + 1)
    ensures !Affords(s, i, off, tot + 1) ==> Full(t.bits)
  {
    assert Shaped(s.img) && i < |s.img.inodes|;
    hide Budget, Affords, Cost, Slot, FreeCount, Full, EndBlock;
    NoneFree(t.bits);
    BudgetStep(s, m, t, i, off / BSIZE, (off + tot) / BSIZE);
    PassAffords(s, i, off, tot, want);
  }

  lemma PassAffords(s: Snap, i: nat, off: nat, tot: nat, want: nat)
    requires Shaped(s.img) && i < |s.img.inodes| && (off + tot) / BSIZE < MAXFILE
    requires EndBlock(off, tot + 1) == (off + tot) / BSIZE + 1 == EndBlock(off, tot + want)
    ensures Affords(s, i, off, tot + 1) <==> Cost(s.img, i, off / BSIZE, (off + tot) / BSIZE + 1) <= FreeCount(s.bits)
    ensures Affords(s, i, off, tot + want) <==> Affords(s, i, off, tot + 1)
  {
  }

  lemma SpentSame(s: Snap, m: Snap, t: Snap, i: nat, off: nat, n: nat, avail: nat, tot: nat, leak: nat)
    requires Spent(s, m, i, off, n, avail, tot, leak) && SameSlots(m.img, t.img) && t.bits == m.bits && tot <= n
    ensures Spent(s, t, i, off, n, avail, tot, leak)
  {
    if tot == n {
      BudgetSame(s, m, t, i, off / BSIZE, EndBlock(off, n));
    }
  }

  lemma LoopPass(nmeta: nat, s: Snap, m: Snap, t: Snap, i: nat, off: nat, n: nat, src: seq<byte>,
                 tot: nat, passes: nat, data: set<nat>, bm: set<nat>, bm2: set<nat>)
    requires LoopAt(nmeta, s, m, i, off, n, src, true, tot, 0, passes, data, bm) && tot < n
    requires Shaped(t.img) && i < |t.img.inodes|
    requires var k := (off + tot) / BSIZE;
             var got := Got(off, n, tot, |src|);
             && (Slot(t.img, i, k) == 0 ==> Full(t.bits))
             && ChunkDone(nmeta, m, t, i, off + tot, if Slot(t.img, i, k) == 0 then [] else src[tot..tot + got], bm2,
                          if got == Want(off, n, tot) || got == 0 then {} else Used(t.img, i, k))
    ensures var k := (off + tot) / BSIZE;
            var want, got := Want(off, n, tot), Got(off, n, tot, |src|);
            if Slot(t.img, i, k) != 0 && got == want
            then LoopAt(nmeta, s, t, i, off, n, src, true, tot + want, 0, passes + 1, data + Used(t.img, i, k), bm + bm2)
            else LoopAt(nmeta, s, t, i, off, n, src, false, tot, if Slot(t.img, i, k) == 0 then 0 else got,
                        passes + 1, data + Used(t.img, i, k), bm + bm2)
  {
    hide Progress, Tally, ChunkDone, Solid;
    WritePass(nmeta, s, m, t, i, off, src, tot, Got(off, n, tot, |src|), Want(off, n, tot), passes, data, bm, bm2);
  }

  /** One pass: all that the next state of the loop needs. */
  lemma WritePass(nmeta: nat, s: Snap, m: Snap, t: Snap, i: nat, off: nat, src: seq<byte>, tot: nat, got: nat, want: nat,
                  passes: nat, data: set<nat>, bm: set<nat>, bm2: set<nat>)
    requires Solid(s.img) && i < |s.img.inodes| && off <= s.img.inodes[i].size
    requires tot + got <= |src| && got <= want && off + tot < MAXFILE * BSIZE && (off + tot) % BSIZE + want <= BSIZE
    requires Progress(nmeta, s, m, i, off, src[..tot], {})
    requires Tally(s, m, i, off, passes, data, bm)
    requires passes == 0 ==> tot == 0
    requires Shaped(t.img) && i < |t.img.inodes|
    requires ChunkDone(nmeta, m, t, i, off + tot,
                       if Slot(t.img, i, (off + tot) / BSIZE) == 0 then [] else src[tot..tot + got], bm2,
                       if got == want || got == 0 then {} else Used(t.img, i, (off + tot) / BSIZE))
    ensures Tally(s, t, i, off, passes + 1, data + Used(t.img, i, (off + tot) / BSIZE), bm + bm2)
    ensures Slot(t.img, i, (off + tot) / BSIZE) == 0 ==> Progress(nmeta, s, t, i, off, src[..tot], {})
    ensures Slot(t.img, i, (off + tot) / BSIZE) != 0 ==>
              Progress(nmeta, s, t, i, off, src[..tot + got], if got == want || got == 0 then {} else Used(t.img, i, (off + tot) / BSIZE))
  {
    hide Progress, Tally, ChunkDone, KeptSlots, Accounted, Owned, Solid;
    ProgressGives(nmeta, s, m, i, off, src[..tot], {});
    var k := (off + tot) / BSIZE;
    var but := if got == want || got == 0 then {} else Used(t.img, i, k);
    ChunkGives(nmeta, m, t, i, off + tot, if Slot(t.img, i, k) == 0 then [] else src[tot..tot + got], bm2, but);
    if passes == 0 && off % BSIZE != 0 {
      FirstPass(s, m, i, off);
    }
    TallyStep(s, m, t, i, off, off + tot, passes, data, bm, bm2);
    if Slot(t.img, i, k) != 0 {
      PrefixMore(src, tot, got);
      ProgressStep(nmeta, s, m, t, i, off, src[..tot], src[tot..tot + got], bm2, but);
    } else {
      ProgressNone(nmeta, s, m, t, i, off, src[..tot], bm2);
    }
  }

  lemma PrefixMore(src: seq<byte>, tot: nat, got: nat)
    requires tot + got <= |src|
    ensures src[..tot] + src[tot..tot + got] == src[..tot + got]
  {
  }

  lemma ProgressGives(nmeta: nat, s: Snap, t: Snap, i: nat, off: nat, done: seq<byte>, but: set<nat>)
    requires Progress(nmeta, s, t, i, off, done, but)
    ensures Owned(nmeta, t.bits, t.img, t.owner) && KeptSlots(s.img, t.img) && Shaped(t.img) && i < |t.img.inodes|
  {
  }

  lemma ChunkGives(nmeta: nat, s: Snap, t: Snap, i: nat, off: nat, data: seq<byte>, bm: set<nat>, but: set<nat>)
    requires ChunkDone(nmeta, s, t, i, off, data, bm, but)
    ensures KeptSlots(s.img, t.img) && Accounted(s.logged, t.logged, bm, s.img, t.img, i, off / BSIZE)
  {
  }

  /** A write that starts in the middle of a block finds that block allocated. */
  lemma FirstPass(s: Snap, m: Snap, i: nat, off: nat)
    requires Solid(s.img) && KeptSlots(s.img, m.img) && i < |s.img.inodes|
    requires off <= s.img.inodes[i].size && off % BSIZE != 0 && off < MAXFILE * BSIZE
    ensures Slot(m.img, i, off / BSIZE) != 0
  {
    assert off / BSIZE * BSIZE < off;
    assert Slot(s.img, i, off / BSIZE) != 0;
  }

  lemma ProgressNone(nmeta: nat, s: Snap, m: Snap, t: Snap, i: nat, off: nat, done: seq<byte>, bm: set<nat>)
    requires Solid(s.img) && Progress(nmeta, s, m, i, off, done, {}) && off + |done| < MAXFILE * BSIZE
    requires ChunkDone(nmeta, m, t, i, off + |done|, [], bm, {})
    ensures Progress(nmeta, s, t, i, off, done, {})
  {
    assert Written(s.img, t.img, i, off, done + []) by {
      StepWritten(s, m, t, i, off, done, []);
    }
    assert done + [] == done;
  }

  /** Setting the size makes the stored bytes the contents of the file. */
  lemma WriteDone(nmeta: nat, s: Snap, t: Snap, i: nat, off: nat, done: seq<byte>, tot: nat, leak: nat, x: nat)
    requires Solid(s.img) && Shaped(t.img) && i < |t.img.inodes| && off + tot <= MAXFILE * BSIZE
    requires Progress(nmeta, s, t, i, off, done, Leaked(t.img, i, off + tot, leak))
    requires off <= s.img.inodes[i].size && tot <= |done|
    ensures t.img.inodes[i].size == s.img.inodes[i].size
    ensures off + tot <= s.img.inodes[i].size ==> WithSize(t.img, i, s.img.inodes[i].size) == t.img
    ensures var size := Max(s.img.inodes[i].size, off + tot);
            var img := WithSize(t.img, i, size);
            && Owned(nmeta, t.bits, img, t.owner) && Solid(img)
            && s.img.inodes[i := img.inodes[i]] == img.inodes && SameSlots(t.img, img)
            && Content(img, i) == Splice(Content(s.img, i), off, done)[..size]
            && (forall j | 0 <= j < |img.inodes| && j != i :: Content(img, j) == Content(s.img, j))
            && Logs(s, Snap(t.bits, img, t.logged + {x}, t.owner), Leaked(img, i, off + tot, leak))
            && Leaked(img, i, off + tot, leak) == Leaked(t.img, i, off + tot, leak)
  {
    var size := Max(s.img.inodes[i].size, off + tot);
    var img := WithSize(t.img, i, size);
    SizeMovesNoByte(t.img, i, size);
    SameSlotsOwned(nmeta, t.bits, t.img, img, t.owner);
    WrittenContent(s.img, t.img, i, off, done, size);
    SolidAfter(s.img, t.img, i, off, |done|, size);
    if off + tot <= s.img.inodes[i].size {
      assert img.inodes == t.img.inodes;
    }
    assert Leaked(img, i, off + tot, leak) == Leaked(t.img, i, off + tot, leak);
  }

  lemma SolidAfter(img: Image, mid: Image, i: nat, off: nat, n: nat, size: nat)
    requires Solid(img) && KeptSlots(img, mid) && Reached(mid, i, off, n)
    requires off <= img.inodes[i].size && (size == img.inodes[i].size || img.inodes[i].size < size <= off + n)
    requires size <= MAXFILE * BSIZE
    ensures Solid(WithSize(mid, i, size))
  {
    var img' := WithSize(mid, i, size);
    SizeMovesNoByte(mid, i, size);
    forall j, k | 0 <= j < |img'.inodes| && 0 <= k < MAXFILE && k * BSIZE < img'.inodes[j].size
      ensures Slot(img', j, k) != 0
    {
      assert Slot(img', j, k) == Slot(mid, j, k);
      if k * BSIZE < img.inodes[j].size {
        assert Slot(img, j, k) != 0;
      }
    }
  }

  lemma TallyBound(s: Snap, t: Snap, i: nat, off: nat, n: nat, passes: nat, data: set<nat>, bm: set<nat>, x: nat, more: set<nat>)
    requires Tally(s, t, i, off, passes, data, bm) && n <= CHUNK && more <= data
    requires passes > 0 ==> (off / BSIZE + passes - 1) * BSIZE < off + n
    ensures |(t.logged + {x} + more) - s.logged| <= MAXOPBLOCKS
  {
    var ind := Used(t.img, i, INDIRECT);
    assert passes <= if off % BSIZE == 0 then 3 else 4;
    UnionSize(data, bm);
    UnionSize(data + bm, ind);
    UnionSize(data + bm + ind, {x});
    SubsetSize((t.logged + {x} + more) - s.logged, data + bm + ind + {x});
  }

  // ---------------------------------------------------------------- readi

  /** A block below the end of the file is allocated, so `bmap` only looks it up. */
  lemma ReadsAllocated(img: Image, i: nat, o: nat)
    requires Solid(img) && i < |img.inodes| && o < img.inodes[i].size
    ensures o / BSIZE < MAXFILE && Slot(img, i, o / BSIZE) != 0
  {
    assert o / BSIZE * BSIZE <= o;
  }

  lemma ReadBytes(nmeta: nat, bits: seq<bool>, img: Image, owner: map<nat, Ref>, i: nat, o: nat, m: nat)
    requires Owned(nmeta, bits, img, owner) && Solid(img) && i < |img.inodes|
    requires o < img.inodes[i].size && o + m <= img.inodes[i].size && o % BSIZE + m <= BSIZE
    ensures 0 < Slot(img, i, o / BSIZE) < |img.blocks|
    ensures img.blocks[Slot(img, i, o / BSIZE)].data[o % BSIZE..o % BSIZE + m] == Content(img, i)[o..o + m]
  {
    ReadsAllocated(img, i, o);
    var b := Slot(img, i, o / BSIZE);
    assert b in owner;
    forall x | o <= x < o + m ensures img.blocks[b].data[x - o + o % BSIZE] == Content(img, i)[x] {
      InBlock(o, m, x);
      SameBlock(o, x);
    }
  }

  /** One pass of the loop in `readi`. */
  lemma ReadPass(nmeta: nat, bits: seq<bool>, img: Image, owner: map<nat, Ref>, i: nat, out: seq<byte>, off: nat, o: nat, m: nat)
    requires Owned(nmeta, bits, img, owner) && Solid(img) && i < |img.inodes| && IsSlice(out, Content(img, i), off, o)
    requires o < img.inodes[i].size && o + m <= img.inodes[i].size && o % BSIZE + m <= BSIZE
    ensures 0 < Slot(img, i, o / BSIZE) < |img.blocks|
    ensures IsSlice(out + img.blocks[Slot(img, i, o / BSIZE)].data[o % BSIZE..o % BSIZE + m], Content(img, i), off, o + m)
  {
    hide Owned, NoHoles, SizesFit, Slot, Content, IsSlice;
    ReadBytes(nmeta, bits, img, owner, i, o, m);
    SliceMore(out, Content(img, i), off, o, m);
  }

  lemma SoundGives(nmeta: nat, bits: seq<bool>, img: Image, owner: map<nat, Ref>)
    requires Owned(nmeta, bits, img, owner) && Solid(img)
    ensures Shaped(img) && SizesFit(img)
  {
  }

  lemma BmapLookup(nmeta: nat, s: Snap, t: Snap, i: nat, k: nat, addr: nat, bm: set<nat>)
    requires Shaped(s.img) && i < |s.img.inodes| && k <= INDIRECT
    requires BmapDone(nmeta, s, t, i, k, addr, bm) && Slot(s.img, i, k) != 0
    ensures t == s && addr == Slot(s.img, i, k)
  {
  }

  predicate IsSlice(out: seq<byte>, file: seq<byte>, lo: nat, hi: nat) {
    lo <= hi <= |file| && out == file[lo..hi]
  }

  lemma SliceNone(file: seq<byte>, lo: nat)
    requires lo <= |file|
    ensures IsSlice([], file, lo, lo)
  {
  }

  lemma SliceMore(out: seq<byte>, file: seq<byte>, lo: nat, hi: nat, n: nat)
    requires IsSlice(out, file, lo, hi) && hi + n <= |file|
    ensures IsSlice(out + file[hi..hi + n], file, lo, hi + n)
  {
  }

  lemma SameBitmapBlock(b: nat, bi: nat)
    requires b % BPB == 0 && bi < BPB
    ensures (b + bi) / BPB == b / BPB
  {
  }

  // ---------------------------------------------------------------- itrunc

  /** The owners that are left once inode `i` owns no slot below `hi`. */
  predicate OwnerWithout(owner: map<nat, Ref>, owner': map<nat, Ref>, i: nat, hi: nat) {
    && (forall b | b in owner' :: b in owner && owner'[b] == owner[b] && !(owner[b].inum == i && owner[b].slot < hi))
    && (forall b | b in owner && !(owner[b].inum == i && owner[b].slot < hi) :: b in owner')
  }

  function Without(owner: map<nat, Ref>, i: nat): map<nat, Ref> {
    map b | b in owner && owner[b].inum != i :: owner[b]
  }

  /** The bitmap blocks that hold the bits of the blocks in slots below `hi`. */
  function MapBlocks(bmapstart: nat, img: Image, i: nat, hi: nat): set<nat>
    requires Shaped(img) && i < |img.inodes| && hi <= INDIRECT + 1
  {
    set k | 0 <= k < hi && Slot(img, i, k) != 0 :: Slot(img, i, k) / BPB + bmapstart
  }

  lemma MapNone(bmapstart: nat, img: Image, i: nat)
    requires Shaped(img) && i < |img.inodes|
    ensures MapBlocks(bmapstart, img, i, 0) == {}
  {
  }

  lemma MapMore(bmapstart: nat, img: Image, i: nat, k: nat)
    requires Shaped(img) && i < |img.inodes| && k <= INDIRECT
    ensures MapBlocks(bmapstart, img, i, k + 1)
            == MapBlocks(bmapstart, img, i, k) + if Slot(img, i, k) == 0 then {} else {Slot(img, i, k) / BPB + bmapstart}
  {
  }

  lemma MapEmpty(bmapstart: nat, img: Image, i: nat)
    requires Shaped(img) && i < |img.inodes| && Slot(img, i, INDIRECT) == 0
    ensures MapBlocks(bmapstart, img, i, INDIRECT + 1) == MapBlocks(bmapstart, img, i, NDIRECT)
  {
  }

  /** Inode `i` has given up its slots below `hi`, and nothing else changed. */
  predicate TruncAt(nmeta: nat, s: Snap, t: Snap, i: nat, hi: nat) {
    && Owned(nmeta, t.bits, t.img, t.owner) && |t.bits| == |s.bits| && Shaped(s.img)
    && t.img.blocks == s.img.blocks && OthersSame(s.img, t.img, i) && i < |s.img.inodes|
    && t.img.inodes[i].size == s.img.inodes[i].size
    && (forall a | 0 <= a <= NDIRECT :: t.img.inodes[i].addrs[a] == if AddrSlot(a) < hi then 0 else s.img.inodes[i].addrs[a])
    && OwnerWithout(s.owner, t.owner, i, hi)
  }

  lemma SlotsLeft(nmeta: nat, s: Snap, m: Snap, i: nat)
    requires TruncAt(nmeta, s, m, i, NDIRECT) && i < |m.img.inodes|
    ensures Shaped(s.img) && i < |s.img.inodes| && Owned(nmeta, m.bits, m.img, m.owner)
    ensures forall k | NDIRECT <= k <= INDIRECT :: Slot(m.img, i, k) == Slot(s.img, i, k)
  {
    assert AddrSlot(NDIRECT) >= NDIRECT;
  }

  lemma TruncStep(nmeta: nat, s: Snap, m: Snap, i: nat, k: nat, l: set<nat>)
    requires TruncAt(nmeta, s, m, i, k) && k < NDIRECT
    ensures var b := m.img.inodes[i].addrs[k];
            if b == 0 then TruncAt(nmeta, s, m, i, k + 1)
            else && b < |m.bits| && m.bits[b]
                 && TruncAt(nmeta, s, Snap(m.bits[b := false], WithAddr(m.img, i, k, 0), l, m.owner - {b}), i, k + 1)
  {
    hide Owned;
    TruncOwner(nmeta, m, i, k);
    if m.img.inodes[i].addrs[k] != 0 {
      TruncDetach(nmeta, m, i, k);
    }
  }

  /** The block in a direct slot is the only one that slot owns. */
  lemma TruncOwner(nmeta: nat, m: Snap, i: nat, k: nat)
    requires Owned(nmeta, m.bits, m.img, m.owner) && i < |m.img.inodes| && k < NDIRECT
    ensures Shaped(m.img) && 0 !in m.owner
    ensures forall c | c in m.owner && m.owner[c] == Ref(i, k) :: c == m.img.inodes[i].addrs[k]
    ensures var b := m.img.inodes[i].addrs[k]; b != 0 ==> b in m.owner && m.owner[b] == Ref(i, k)
  {
    assert Slot(m.img, i, k) == m.img.inodes[i].addrs[k];
    forall c | c in m.owner && m.owner[c] == Ref(i, k) ensures c == m.img.inodes[i].addrs[k] {
      assert Slot(m.img, m.owner[c].inum, m.owner[c].slot) == c;
    }
  }

  lemma TruncDetach(nmeta: nat, m: Snap, i: nat, k: nat)
    requires Owned(nmeta, m.bits, m.img, m.owner) && i < |m.img.inodes| && k < NDIRECT && m.img.inodes[i].addrs[k] != 0
    ensures var b := m.img.inodes[i].addrs[k];
            b < |m.bits| && m.bits[b] && Owned(nmeta, m.bits[b := false], WithAddr(m.img, i, k, 0), m.owner - {b})
  {
    assert Slot(m.img, i, k) == m.img.inodes[i].addrs[k];
    AddrWrite(m.img, i, k, 0);
    hide SlotSet, SlotsOwned, OwnersHold;
    Detach(nmeta, m.bits, m.img, WithAddr(m.img, i, k, 0), m.owner, i, k);
  }

  /** The free map once the first `j` entries of the indirect block (and, for
      the last value of `j`, the block itself) were freed. */
  predicate Cleared(bits: seq<bool>, bits': seq<bool>, owner: map<nat, Ref>, i: nat, j: nat) {
    && |bits'| == |bits|
    && forall b | 0 <= b < |bits| ::
         bits'[b] == (bits[b] && !(b in owner && owner[b].inum == i && NDIRECT <= owner[b].slot < NDIRECT + j))
  }

  lemma ClearNone(bits: seq<bool>, owner: map<nat, Ref>, i: nat)
    ensures Cleared(bits, bits, owner, i, 0)
  {
  }

  /** Freeing the next entry finds it marked used. */
  lemma ClearStep(nmeta: nat, s: Snap, bits: seq<bool>, i: nat, j: nat)
    requires Owned(nmeta, s.bits, s.img, s.owner) && i < |s.img.inodes| && j <= NINDIRECT
    requires Cleared(s.bits, bits, s.owner, i, j)
    ensures var b := Slot(s.img, i, NDIRECT + j);
            if b == 0 then Cleared(s.bits, bits, s.owner, i, j + 1)
            else b < |bits| && bits[b] && Cleared(s.bits, bits[b := false], s.owner, i, j + 1)
  {
    var b := Slot(s.img, i, NDIRECT + j);
    if b != 0 {
      assert b in s.owner && s.owner[b] == Ref(i, NDIRECT + j);
    }
    forall c | c in s.owner && s.owner[c] == Ref(i, NDIRECT + j) ensures c == b {
      assert Slot(s.img, s.owner[c].inum, s.owner[c].slot) == c;
    }
  }

  /** The indirect block and its entries are gone. */
  lemma DropRest(nmeta: nat, s: Snap, m: Snap, t: Snap, i: nat)
    requires TruncAt(nmeta, s, m, i, NDIRECT) && t.owner == Without(m.owner, i)
    requires if m.img.inodes[i].addrs[NDIRECT] == 0 then t.bits == m.bits && t.img == m.img
             else Cleared(m.bits, t.bits, m.owner, i, NINDIRECT + 1) && t.img == WithAddr(m.img, i, NDIRECT, 0)
    ensures TruncAt(nmeta, s, t, i, INDIRECT + 1)
  {
    forall a | 0 <= a <= NDIRECT ensures t.img.inodes[i].addrs[a] == 0 {
      assert a < NDIRECT ==> AddrSlot(a) < NDIRECT;
    }
    DropRestOwned(nmeta, s, m, t, i);
  }

  lemma DropRestOwned(nmeta: nat, s: Snap, m: Snap, t: Snap, i: nat)
    requires Owned(nmeta, m.bits, m.img, m.owner) && OwnerWithout(s.owner, m.owner, i, NDIRECT)
    requires t.owner == Without(m.owner, i) && Shaped(t.img) && i < |m.img.inodes| == |t.img.inodes|
    requires t.img.blocks == m.img.blocks && OthersSame(m.img, t.img, i)
    requires forall a | 0 <= a <= NDIRECT :: t.img.inodes[i].addrs[a] == 0
    requires if m.img.inodes[i].addrs[NDIRECT] == 0 then t.bits == m.bits
             else Cleared(m.bits, t.bits, m.owner, i, NINDIRECT + 1)
    ensures Owned(nmeta, t.bits, t.img, t.owner)
  {
    SlotsOfOthers(m.img, t.img, i);
    DropRestBits(nmeta, s, m, t, i);
    hide Slot, OwnerWithout, OthersSame, Cleared;
    DropRestHold(nmeta, m, t, i);
    forall j, k | 0 <= j < |t.img.inodes| && 0 <= k <= INDIRECT && Slot(t.img, j, k) != 0
      ensures Slot(t.img, j, k) in t.owner && t.owner[Slot(t.img, j, k)] == Ref(j, k)
    {
      assert Slot(m.img, j, k) in m.owner;
    }
  }

  /** The bits that are left are those of metadata and of the owners that are left. */
  lemma DropRestBits(nmeta: nat, s: Snap, m: Snap, t: Snap, i: nat)
    requires Owned(nmeta, m.bits, m.img, m.owner) && OwnerWithout(s.owner, m.owner, i, NDIRECT) && i < |m.img.inodes|
    requires t.owner == Without(m.owner, i)
    requires if m.img.inodes[i].addrs[NDIRECT] == 0 then t.bits == m.bits
             else Cleared(m.bits, t.bits, m.owner, i, NINDIRECT + 1)
    ensures |t.bits| == |m.bits| && (forall b | 0 <= b < nmeta :: t.bits[b]) && (forall b | b in t.owner && b < |t.bits| :: t.bits[b])
    ensures forall b | nmeta <= b < |t.bits| && t.bits[b] :: b in t.owner
  {
    hide Slot;
    IndirectOnly(nmeta, s, m, i);
  }

  lemma DropRestHold(nmeta: nat, m: Snap, t: Snap, i: nat)
    requires Owned(nmeta, m.bits, m.img, m.owner) && t.owner == Without(m.owner, i) && Shaped(t.img)
    requires i < |m.img.inodes| == |t.img.inodes| && |t.bits| == |m.bits| && (forall b | b in t.owner && b < |t.bits| :: t.bits[b])
    requires forall j, k | 0 <= j < |m.img.inodes| && 0 <= k <= INDIRECT :: Slot(t.img, j, k) == if j == i then 0 else Slot(m.img, j, k)
    ensures OwnersHold(nmeta, t.bits, t.img, t.owner)
  {
    hide Slot;
    forall b | b in t.owner ensures Slot(t.img, t.owner[b].inum, t.owner[b].slot) == b {
      assert Slot(m.img, m.owner[b].inum, m.owner[b].slot) == b;
    }
  }

  lemma IndirectOnly(nmeta: nat, s: Snap, m: Snap, i: nat)
    requires Owned(nmeta, m.bits, m.img, m.owner) && OwnerWithout(s.owner, m.owner, i, NDIRECT) && i < |m.img.inodes|
    ensures forall b | b in m.owner && m.owner[b].inum == i :: m.img.inodes[i].addrs[NDIRECT] != 0 && NDIRECT <= m.owner[b].slot
  {
    forall b | b in m.owner && m.owner[b].inum == i ensures m.img.inodes[i].addrs[NDIRECT] != 0 && NDIRECT <= m.owner[b].slot {
      assert Slot(m.img, i, m.owner[b].slot) == b;
    }
  }

  lemma SlotsOfOthers(img: Image, img': Image, i: nat)
    requires Shaped(img) && Shaped(img') && OthersSame(img, img', i) && img'.blocks == img.blocks && i < |img.inodes|
    requires forall a | 0 <= a <= NDIRECT :: img'.inodes[i].addrs[a] == 0
    ensures forall j, k | 0 <= j < |img.inodes| && 0 <= k <= INDIRECT ::
              Slot(img', j, k) == if j == i then 0 else Slot(img, j, k)
  {
  }

  /** What `itrunc` did: the file is empty and holds no block, every other
      inode and every block's contents are as they were, and the free map lost
      exactly the blocks that belonged to the file. */
  predicate Truncated(s: Snap, t: Snap, i: nat) {
    && Solid(s.img) && Solid(t.img) && |t.img.inodes| == |s.img.inodes| && i < |s.img.inodes|
    && Content(t.img, i) == [] && (forall k | 0 <= k <= INDIRECT :: Slot(t.img, i, k) == 0)
    && (forall j | 0 <= j < |s.img.inodes| && j != i :: t.img.inodes[j] == s.img.inodes[j] && Content(t.img, j) == Content(s.img, j))
    && t.img.blocks == s.img.blocks && |t.bits| == |s.bits|
    && (forall b | 0 <= b < |s.bits| :: t.bits[b] <==> s.bits[b] && !(b in s.owner && s.owner[b].inum == i))
  }

  lemma TruncDone(nmeta: nat, s: Snap, t: Snap, i: nat, l: set<nat>)
    requires Owned(nmeta, s.bits, s.img, s.owner) && Solid(s.img) && TruncAt(nmeta, s, t, i, INDIRECT + 1)
    ensures i < |t.img.inodes|
    ensures var img := WithSize(t.img, i, 0);
            && Owned(nmeta, t.bits, img, t.owner) && Solid(img)
            && s.img.inodes[i := img.inodes[i]] == img.inodes
            && Truncated(s, Snap(t.bits, img, l, t.owner), i)
  {
    hide SlotsOwned, OwnersHold, OwnerWithout, Slot, NoHoles, Content;
    var img := WithSize(t.img, i, 0);
    TruncBits(nmeta, s, t, i);
    SizeMovesNoByte(t.img, i, 0);
    SameSlotsOwned(nmeta, t.bits, t.img, img, t.owner);
    SlotsOfOthers(s.img, img, i);
    TruncSolid(s.img, img, i);
    SameContents(s.img, img, i);
    assert |Content(img, i)| == 0;
  }

  lemma TruncSolid(img: Image, img': Image, i: nat)
    requires Solid(img) && Shaped(img') && OthersSame(img, img', i) && i < |img.inodes| && img'.inodes[i].size == 0
    requires forall j, k | 0 <= j < |img.inodes| && 0 <= k <= INDIRECT :: Slot(img', j, k) == if j == i then 0 else Slot(img, j, k)
    ensures Solid(img')
  {
    hide Slot;
  }

  /** Exactly the bits of the file's blocks are cleared. */
  lemma TruncBits(nmeta: nat, s: Snap, t: Snap, i: nat)
    requires Owned(nmeta, s.bits, s.img, s.owner) && TruncAt(nmeta, s, t, i, INDIRECT + 1)
    ensures forall b | 0 <= b < |s.bits| :: t.bits[b] <==> s.bits[b] && !(b in s.owner && s.owner[b].inum == i)
  {
    hide Slot, SlotsOwned;
    forall b | 0 <= b < |s.bits| ensures t.bits[b] <==> s.bits[b] && !(b in s.owner && s.owner[b].inum == i) {
    }
  }

  lemma SameContents(img: Image, img': Image, i: nat)
    requires Solid(img) && Solid(img') && OthersSame(img, img', i) && img'.blocks == img.blocks
    ensures forall j | 0 <= j < |img.inodes| && j != i :: Content(img', j) == Content(img, j)
  {
    forall j | 0 <= j < |img.inodes| && j != i ensures Content(img', j) == Content(img, j) {
      forall o | 0 <= o < img.inodes[j].size ensures ByteAt(img', j, o) == ByteAt(img, j, o) {
        assert Slot(img', j, o / BSIZE) == Slot(img, j, o / BSIZE);
      }
    }
  }

  lemma JournalTrunc(nmeta: nat, bmapstart: nat, inodestart: nat, s: Snap, t: Snap, i: nat)
    requires Owned(nmeta, s.bits, s.img, s.owner) && Truncated(s, t, i) && Shrunk(s, t, i)
    requires t.logged == s.logged + MapBlocks(bmapstart, s.img, i, INDIRECT + 1) + {i / IPB + inodestart}
    ensures Journaled(bmapstart, inodestart, s, t)
  {
    hide Content, Solid, Slot, SlotsOwned;
    forall b | 0 <= b < |s.bits| && t.bits[b] != s.bits[b] ensures b / BPB + bmapstart in t.logged {
      assert b in s.owner && s.owner[b].inum == i;
      assert Slot(s.img, i, s.owner[b].slot) == b;
    }
  }

  lemma TruncShrunk(nmeta: nat, s: Snap, m: Snap, t: Snap, i: nat)
    requires TruncAt(nmeta, s, m, i, INDIRECT + 1) && Owned(nmeta, s.bits, s.img, s.owner)
    requires t.owner == m.owner && t.img == WithSize(m.img, i, 0)
    ensures Shrunk(s, t, i)
  {
  }

  // ---------------------------------------------------------------- filewrite

  /** Between the two images `data` was written into file `i` at `off`, the
      file now ends at `end` if it ended before it, and no other file changed. */
  predicate SplicedTo(img: Image, img': Image, i: nat, off: nat, data: seq<byte>, end: nat) {
    && Solid(img) && Solid(img') && |img'.inodes| == |img.inodes| && i < |img.inodes|
    && off <= img.inodes[i].size && end <= off + |data|
    && Content(img', i) == Splice(Content(img, i), off, data)[..Max(img.inodes[i].size, end)]
    && (forall j | 0 <= j < |img.inodes| && j != i :: Content(img', j) == Content(img, j))
  }

  /** How many bytes `filewrite` puts into one transaction. */
  const CHUNK := 3 * BSIZE

  /** How many transactions it takes to write `done` bytes. */
  function Chunks(done: nat): nat {
    (done + CHUNK - 1) / CHUNK
  }

  /** How many transactions a call of `filewrite` made that moved the offset by
      `moved`: the last of a failing one is the short one. */
  function Transactions(n: int, ret: int, moved: nat): nat {
    if n <= 0 then 0 else if ret == n then Chunks(n) else moved / CHUNK + 1
  }

  /** One transaction of `filewrite`: what it found, where it wrote, what it left. */
  datatype Turn = Turn(before: Snap, off: nat, after: Snap, r: int, leak: nat)

  /** How many bytes the transaction numbered `k` is for. */
  function Part(n: int, k: nat): int {
    if n - CHUNK * k < CHUNK then n - CHUNK * k else CHUNK
  }

  predicate TurnOk(bmapstart: nat, inodestart: nat, t: Turn, i: nat, src: seq<byte>, n: int, k: nat) {
    && CHUNK * k < n && CHUNK * k <= |src| && |t.after.logged| <= MAXOPBLOCKS
    && Transacted(t.before, t.after, i, t.off, Part(n, k), src[CHUNK * k..], t.r, t.leak) && Grew(t.before, t.after, i)
    && JournaledBut(bmapstart, inodestart, t.before, t.after, LeakedBy(t.after.img, i, t.off, t.r, t.leak))
  }

  /** Each transaction takes up the source where the ones before it, all of them
      full, left off. */
  predicate Turns(bmapstart: nat, inodestart: nat, ts: seq<Turn>, i: nat, src: seq<byte>, n: int) {
    forall k | 0 <= k < |ts| :: TurnOk(bmapstart, inodestart, ts[k], i, src, n, k)
  }

  /** The first `m` transactions wrote all they were for. */
  predicate AllFull(ts: seq<Turn>, n: int, m: int) {
    forall k | 0 <= k < m && k < |ts| :: ts[k].r == Part(n, k)
  }

  /** `filewrite` after full transactions for `done` bytes. */
  predicate Turned(bmapstart: nat, inodestart: nat, ts: seq<Turn>, i: nat, src: seq<byte>, n: int, done: nat) {
    && Turns(bmapstart, inodestart, ts, i, src, n) && AllFull(ts, n, |ts|)
    && |ts| == Chunks(done) && (done % CHUNK == 0 || done == n) && done <= |src|
  }

  lemma TurnedStart(bmapstart: nat, inodestart: nat, i: nat, src: seq<byte>, n: int)
    ensures Turned(bmapstart, inodestart, [], i, src, n, 0)
  {
  }

  lemma TurnedGives(bmapstart: nat, inodestart: nat, ts: seq<Turn>, i: nat, src: seq<byte>, n: int, done: nat)
    requires Turned(bmapstart, inodestart, ts, i, src, n, done)
    ensures Turns(bmapstart, inodestart, ts, i, src, n) && AllFull(ts, n, |ts|) && AllFull(ts, n, |ts| - 1)
    ensures |ts| == Chunks(done) && done <= |src| && (done < n ==> done % CHUNK == 0)
  {
  }

  lemma TurnedMore(bmapstart: nat, inodestart: nat, ts: seq<Turn>, i: nat, src: seq<byte>, n: int, done: nat, n1: nat, t: Turn)
    requires Turned(bmapstart, inodestart, ts, i, src, n, done) && done < n && n1 == if n - done > CHUNK then CHUNK else n - done
    requires Transacted(t.before, t.after, i, t.off, n1, src[done..], t.r, t.leak) && Grew(t.before, t.after, i)
    requires JournaledBut(bmapstart, inodestart, t.before, t.after, LeakedBy(t.after.img, i, t.off, t.r, t.leak))
    ensures Turns(bmapstart, inodestart, ts + [t], i, src, n) && AllFull(ts + [t], n, |ts|)
    ensures t.r == n1 <==> AllFull(ts + [t], n, |ts + [t]|)
    ensures t.r == n1 ==> Turned(bmapstart, inodestart, ts + [t], i, src, n, done + n1)
    ensures |ts| == done / CHUNK
  {
    hide Transacted, Grew, JournaledBut;
    ChunksMore(done, n1, n);
    assert done == CHUNK * |ts| && n1 == Part(n, |ts|);
    TransactedGives(t.before, t.after, i, t.off, n1, src[done..], t.r, t.leak);
    assert TurnOk(bmapstart, inodestart, t, i, src, n, |ts|);
  }

  /** All `n` bytes at `off` can be written: the file reaches to `off`, it may
      grow that far, the source can be read and the disk has the blocks. */
  predicate WillFit(s: Snap, i: nat, off: nat, n: nat, avail: nat) {
    && i < |s.img.inodes| && off <= s.img.inodes[i].size && off + n <= MAXFILE * BSIZE
    && n <= avail && Affords(s, i, off, n)
  }

  /** What one transaction did: it failed outright exactly when `off` is past the
      end of the file or the end would be past the largest file; otherwise it
      wrote a part, all of it exactly when that fits. */
  predicate Transacted(s: Snap, t: Snap, i: nat, off: nat, n: nat, src: seq<byte>, r: int, leak: nat) {
    && i < |s.img.inodes| && |t.logged + LeakedBy(t.img, i, off, r, leak)| <= MAXOPBLOCKS
    && (r == -1 <==> off > s.img.inodes[i].size || off + n > MAXFILE * BSIZE)
    && (r == n <==> WillFit(s, i, off, n, |src|))
    && (r == n ==> leak == 0 && Budget(s, t, i, off / BSIZE, EndBlock(off, n)))
    && (r == -1 ==> t.img == s.img && t.bits == s.bits && leak == 0)
    && (r != -1 ==>
          && 0 <= r <= n && r + leak <= |src| && leak == WillLeak(s, i, off, n, |src|)
          && SplicedTo(s.img, t.img, i, off, src[..r + leak], off + r))
  }

  /** The chunks written so far add up to one write of `done` bytes and, after
      a failed copy, `leak` more. */
  predicate Chained(img: Image, img': Image, i: nat, off: nat, src: seq<byte>, done: nat, leak: nat) {
    && i < |img.inodes| && done + leak <= |src|
    && if off > img.inodes[i].size then img' == img
       else SplicedTo(img, img', i, off, src[..done + leak], off + done)
  }

  lemma ChainStart(img: Image, i: nat, off: nat, src: seq<byte>)
    requires Solid(img) && i < |img.inodes|
    ensures Chained(img, img, i, off, src, 0, 0)
  {
    assert src[..0] == [];
    if off <= img.inodes[i].size {
      assert Splice(Content(img, i), off, []) == Content(img, i);
    }
  }

  lemma Refused(s: Snap, t: Snap, i: nat, off: nat, n: nat, src: seq<byte>)
    requires t == s.(logged := {}) && i < |s.img.inodes| && (off > s.img.inodes[i].size || off + n > MAXFILE * BSIZE)
    ensures Transacted(s, t, i, off, n, src, -1, 0)
  {
  }

  lemma JournalWrite(bmapstart: nat, inodestart: nat, s0: Snap, s: Snap, t: Snap, i: nat, off: nat, n: nat, src: seq<byte>, tot: nat, leak: nat)
    requires s == s0.(logged := {}) && Wrote(s, t, i, off, n, src, tot, leak)
    requires MapLogged(bmapstart, s, t) && InodeLogged(s, t, i, i / IPB + inodestart)
    ensures JournaledBut(bmapstart, inodestart, s0, t, LeakedBy(t.img, i, off, tot, leak))
  {
    hide Content, Splice, Spent, NoHoles, SizesFit;
  }

  lemma ChunkFits(s0: Snap, s: Snap, t: Snap, i: nat, off: nat, n: nat, src: seq<byte>, tot: nat, leak: nat)
    requires Wrote(s, t, i, off, n, src, tot, leak) && s == s0.(logged := {}) && n <= CHUNK
    ensures Transacted(s0, t, i, off, n, src, tot, leak) && |t.img.inodes| == |s.img.inodes|
  {
    hide Affords, Budget, Content, Splice, Solid, Stopped, WillLeak, Logs, LeakedBy, Leaked;
    ChunkLogged(s, t, i, off, n, src, tot, leak);
    LeakIff(s, t, i, off, n, src, tot, leak);
    AllIff(s, t, i, off, n, src, tot, leak);
    SameSpace(s, s0, t, i, off, n, |src|);
  }

  lemma ChunkLogged(s: Snap, t: Snap, i: nat, off: nat, n: nat, src: seq<byte>, tot: nat, leak: nat)
    requires Wrote(s, t, i, off, n, src, tot, leak) && s.logged == {} && n <= CHUNK
    ensures |t.logged + LeakedBy(t.img, i, off, tot, leak)| <= MAXOPBLOCKS
  {
    hide Content, Splice, Spent, Logs, NoHoles;
    var leaked := Leaked(t.img, i, off + tot, leak);
    assert LeakedBy(t.img, i, off, tot, leak) == leaked;
    assert (t.logged + leaked) - s.logged == t.logged + leaked;
  }

  lemma SameSpace(s: Snap, s0: Snap, t: Snap, i: nat, off: nat, n: nat, avail: nat)
    requires s == s0.(logged := {})
    ensures Affords(s, i, off, n) == Affords(s0, i, off, n)
    ensures WillLeak(s, i, off, n, avail) == WillLeak(s0, i, off, n, avail)
    ensures Budget(s, t, i, off / BSIZE, EndBlock(off, n)) == Budget(s0, t, i, off / BSIZE, EndBlock(off, n))
  {
    assert Affords(s, i, off, avail) == Affords(s0, i, off, avail);
  }

  lemma SpliceTwice(c: seq<byte>, off: nat, a: seq<byte>, b: seq<byte>)
    requires off <= |c|
    ensures Splice(Splice(c, off, a), off + |a|, b) == Splice(c, off, a + b)
  {
  }

  lemma ChainBytes(c: seq<byte>, off: nat, src: seq<byte>, done: nat, r: nat, leak: nat)
    requires off <= |c| && done + r + leak <= |src|
    ensures var c1 := Splice(c, off, src[..done])[..Max(|c|, off + done)];
            && off + done <= |c1| == Max(|c|, off + done)
            && Splice(c1, off + done, src[done..][..r + leak])[..Max(|c1|, off + done + r)]
               == Splice(c, off, src[..done + r + leak])[..Max(|c|, off + done + r)]
  {
    var a, b := src[..done], src[done..][..r + leak];
    assert Splice(c, off, a)[..Max(|c|, off + done)] == Splice(c, off, a);
    assert src[..done + r + leak] == a + b;
    SpliceTwice(c, off, a, b);
  }

  lemma ChainMore(img: Image, mid: Image, img': Image, i: nat, off: nat, src: seq<byte>, done: nat, r: nat, leak: nat)
    requires Chained(img, mid, i, off, src, done, 0) && i < |img.inodes| && off <= img.inodes[i].size
    requires done + r + leak <= |src| && SplicedTo(mid, img', i, off + done, src[done..][..r + leak], off + done + r)
    ensures Chained(img, img', i, off, src, done + r, leak)
  {
    hide Splice, NoHoles;
    ChainBytes(Content(img, i), off, src, done, r, leak);
  }

  /** `filewrite` after transactions that wrote `done` of its `n` bytes. */
  predicate Filing(s: Snap, t: Snap, i: nat, off: nat, src: seq<byte>, n: int, done: nat) {
    && Chained(s.img, t.img, i, off, src, done, 0) && Solid(s.img)
    && (done > 0 ==> off <= s.img.inodes[i].size && off + done <= MAXFILE * BSIZE)
    && (off <= s.img.inodes[i].size ==> Budget(s, t, i, off / BSIZE, EndBlock(off, done)))
    && (off > s.img.inodes[i].size ==> t.bits == s.bits)
  }

  lemma FilingStart(s: Snap, i: nat, off: nat, src: seq<byte>, n: int)
    requires Solid(s.img) && i < |s.img.inodes|
    ensures Filing(s, s, i, off, src, n, 0)
  {
    ChainStart(s.img, i, off, src);
    if off <= s.img.inodes[i].size {
      BudgetStart(s, i, off / BSIZE);
    }
  }

  lemma FilingGives(s: Snap, t: Snap, i: nat, off: nat, src: seq<byte>, n: int, done: nat)
    requires Filing(s, t, i, off, src, n, done)
    ensures i < |s.img.inodes| && done <= |src| && Chained(s.img, t.img, i, off, src, done, 0)
    ensures done > 0 ==> off + done <= MAXFILE * BSIZE
    ensures done > 0 && done == n ==> WillFit(s, i, off, n, |src|)
  {
  }

  lemma TransactedGives(s: Snap, t: Snap, i: nat, off: nat, n: nat, src: seq<byte>, r: int, leak: nat)
    requires Transacted(s, t, i, off, n, src, r, leak)
    ensures |t.logged| <= MAXOPBLOCKS && -1 <= r <= n
    ensures r == n ==> leak == 0 && n <= |src| && off + n <= MAXFILE * BSIZE
  {
    SubsetSize(t.logged, t.logged + LeakedBy(t.img, i, off, r, leak));
  }

  lemma ChunksMore(done: nat, n1: nat, n: nat)
    requires done % CHUNK == 0 && 0 < n1 <= CHUNK && (n1 == CHUNK || done + n1 == n)
    ensures Chunks(done + n1) == Chunks(done) + 1 && Chunks(done) == done / CHUNK
    ensures (done + n1) % CHUNK == 0 || done + n1 == n
  {
  }

  lemma ShortChunk(done: nat, r: nat)
    requires done % CHUNK == 0 && r < CHUNK
    ensures (done + r) / CHUNK == done / CHUNK
  {
  }

  /** One transaction more: a full one goes on, and after a short one not all of
      the `n` bytes could have been written. */
  lemma FilingPass(s: Snap, m: Snap, t: Snap, i: nat, off: nat, src: seq<byte>, n: int, done: nat, n1: nat, r: int, leak: nat)
    requires Filing(s, m, i, off, src, n, done) && done + n1 <= n && 0 < n1
    requires Transacted(m, t, i, off + done, n1, src[done..], r, leak)
    ensures r == n1 ==> Filing(s, t, i, off, src, n, done + n1)
    ensures r != n1 ==> !WillFit(s, i, off, n, |src|)
    ensures r == -1 ==> Chained(s.img, t.img, i, off, src, done, 0)
    ensures r != -1 ==> Chained(s.img, t.img, i, off, src, done + r, leak)
  {
    hide Affords, Budget, SplicedTo, WillLeak;
    if r != -1 {
      Reaches(s.img, m.img, i, off, src, done);
      ChainMore(s.img, m.img, t.img, i, off, src, done, r, leak);
    }
    if r == n1 {
      FilingBudget(s, m, t, i, off, done, n1);
    } else if WillFit(s, i, off, n, |src|) {
      Reaches(s.img, m.img, i, off, src, done);
      AffordsLess(s, i, off, done + n1, n);
      ChunkAffords(s, m, i, off, done, n1);
    }
  }

  /** The file reaches to where the next chunk starts if it did to the first. */
  lemma Reaches(img: Image, mid: Image, i: nat, off: nat, src: seq<byte>, done: nat)
    requires Chained(img, mid, i, off, src, done, 0) && (done > 0 ==> off <= img.inodes[i].size)
    ensures i < |mid.inodes|
    ensures off + done <= mid.inodes[i].size <==> off <= img.inodes[i].size
  {
  }

  lemma ChunkAffords(s: Snap, m: Snap, i: nat, off: nat, done: nat, n1: nat)
    requires Budget(s, m, i, off / BSIZE, EndBlock(off, done)) && n1 > 0
    ensures Affords(m, i, off + done, n1) <==> Affords(s, i, off, done + n1)
  {
    ChunkEnds(off, done, n1);
    if EndBlock(off, done + n1) <= MAXFILE {
      CostAfter(s, m, i, off / BSIZE, EndBlock(off, done), EndBlock(off, done + n1), (off + done) / BSIZE);
    }
  }

  lemma FilingBudget(s: Snap, m: Snap, t: Snap, i: nat, off: nat, done: nat, n1: nat)
    requires Budget(s, m, i, off / BSIZE, EndBlock(off, done)) && n1 > 0
    requires Budget(m, t, i, (off + done) / BSIZE, EndBlock(off + done, n1))
    ensures Budget(s, t, i, off / BSIZE, EndBlock(off, done + n1))
  {
    hide Budget;
    ChunkEnds(off, done, n1);
    BudgetTrans(s, m, t, i, off / BSIZE, EndBlock(off, done), EndBlock(off, done + n1), (off + done) / BSIZE);
  }

  lemma ChunkEnds(off: nat, done: nat, n1: nat)
    requires n1 > 0
    ensures EndBlock(off + done, n1) == EndBlock(off, done + n1)
    ensures off / BSIZE <= (off + done) / BSIZE <= EndBlock(off, done) <= EndBlock(off, done + n1)
    ensures (off + done) / BSIZE < EndBlock(off, done + n1)
  {
  }
}
