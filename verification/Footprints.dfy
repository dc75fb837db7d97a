/** The parts of the file system that one transaction may touch, and why
    transactions that touch different parts do not get in each other's way
    though they share bitmap and inode blocks. */
module Footprints {
  import opened Bytes
  import opened FileSystem
  import opened Inodes
  import opened OnDisk
  import opened Params
  import opened Space

  predicate Sound(pl: Places, s: Snap) {
    Owned(pl.nmeta, s.bits, s.img, s.owner) && Solid(s.img)
  }

  /** What one transaction may do: lead to a sound state, and log each block that
      it changes, and no more than were reserved. */
  predicate Step(pl: Places, s: Snap, t: Snap) {
    Sound(pl, t) && Journaled(pl.bmapstart, pl.inodestart, s, t) && |t.logged| <= MAXOPBLOCKS
  }

  /** Inodes, and blocks with their bits in the free map. */
  datatype Foot = Foot(inums: set<nat>, blocks: set<nat>) {
    predicate Apart(g: Foot) {
      inums !! g.inums && blocks !! g.blocks
    }

    function Plus(g: Foot): Foot {
      Foot(inums + g.inums, blocks + g.blocks)
    }

    predicate Within(g: Foot) {
      inums <= g.inums && blocks <= g.blocks
    }
  }

  const NoFoot := Foot({}, {})

  /** The owned blocks of `f` are those of its inodes. */
  predicate Own(s: Snap, f: Foot) {
    forall b | b in s.owner :: b in f.blocks <==> s.owner[b].inum in f.inums
  }

  predicate SameSize(s: Snap, t: Snap) {
    |t.bits| == |s.bits| && |t.img.blocks| == |s.img.blocks| && |t.img.inodes| == |s.img.inodes|
  }

  /** Nothing changed outside `f`. */
  ghost predicate Unchanged(s: Snap, t: Snap, f: Foot) {
    && SameSize(s, t)
    && (forall b | 0 <= b < |s.bits| && b !in f.blocks :: t.bits[b] == s.bits[b])
    && (forall b | 0 <= b < |s.img.blocks| && b !in f.blocks :: t.img.blocks[b] == s.img.blocks[b])
    && (forall i | 0 <= i < |s.img.inodes| && i !in f.inums :: t.img.inodes[i] == s.img.inodes[i])
    && (forall b: nat | b !in f.blocks :: SameOwner(s.owner, t.owner, b))
  }

  predicate SameOwner(o: map<nat, Ref>, p: map<nat, Ref>, b: nat) {
    (b in o <==> b in p) && (b in o ==> p[b] == o[b])
  }

  /** The transaction keeps to `f`. */
  ghost predicate Confined(s: Snap, t: Snap, f: Foot) {
    Own(s, f) && Own(t, f) && Unchanged(s, t, f)
  }

  // ---------------------------------------------------------------- transactions of the file system

  /** An inode and the blocks it has before or after. */
  function FootOf(s: Snap, t: Snap, i: nat): Foot {
    Foot({i}, (set b | b in s.owner && s.owner[b].inum == i) + (set b | b in t.owner && t.owner[b].inum == i))
  }

  lemma BitsByOwner(pl: Places, s: Snap, t: Snap, b: nat)
    requires Sound(pl, s) && Sound(pl, t) && b < |s.bits| == |t.bits| && SameOwner(s.owner, t.owner, b)
    ensures t.bits[b] == s.bits[b]
  {
  }

  lemma GrewConfined(pl: Places, s: Snap, t: Snap, i: nat)
    requires Sound(pl, s) && Sound(pl, t) && Grew(s, t, i)
    ensures Confined(s, t, FootOf(s, t, i))
  {
    hide Solid, SlotsOwned, OwnersHold;
    var f := FootOf(s, t, i);
    forall b | 0 <= b < |s.bits| && b !in f.blocks ensures t.bits[b] == s.bits[b] {
      BitsByOwner(pl, s, t, b);
    }
  }

  lemma ShrunkConfined(pl: Places, s: Snap, t: Snap, i: nat)
    requires Sound(pl, s) && Sound(pl, t) && Shrunk(s, t, i)
    ensures Confined(s, t, FootOf(s, t, i))
  {
    hide Solid, SlotsOwned, OwnersHold;
    var f := FootOf(s, t, i);
    forall b | 0 <= b < |s.bits| && b !in f.blocks ensures t.bits[b] == s.bits[b] {
      BitsByOwner(pl, s, t, b);
    }
  }

  // ---------------------------------------------------------------- two transactions side by side

  /** State `u` with the parts in `f` taken from `t`. */
  ghost function Merge(u: Snap, t: Snap, f: Foot): Snap
    requires SameSize(u, t)
  {
    Snap(seq(|u.bits|, b requires 0 <= b < |u.bits| => if b in f.blocks then t.bits[b] else u.bits[b]),
         Image(seq(|u.img.blocks|, b requires 0 <= b < |u.img.blocks| => if b in f.blocks then t.img.blocks[b] else u.img.blocks[b]),
               seq(|u.img.inodes|, i requires 0 <= i < |u.img.inodes| => if i in f.inums then t.img.inodes[i] else u.img.inodes[i])),
         t.logged,
         map b | b in t.owner.Keys + u.owner.Keys && (if b in f.blocks then b in t.owner else b in u.owner)
           :: if b in f.blocks then t.owner[b] else u.owner[b])
  }

  /** In the merged state an inode's slots are those of the side it is from. */
  ghost predicate Sided(u: Snap, t: Snap, f: Foot, m: Snap)
    requires Shaped(t.img) && Shaped(u.img)
  {
    && Shaped(m.img) && |m.img.inodes| == |t.img.inodes| == |u.img.inodes|
    && (forall i, k | 0 <= i < |m.img.inodes| && 0 <= k <= INDIRECT ::
          Slot(m.img, i, k) == if i in f.inums then Slot(t.img, i, k) else Slot(u.img, i, k))
  }

  lemma MergeSlot(pl: Places, u: Snap, t: Snap, f: Foot, i: nat, k: nat)
    requires Sound(pl, t) && Sound(pl, u) && Own(t, f) && Own(u, f)
    requires SameSize(u, t)
    requires Shaped(Merge(u, t, f).img) && i < |u.img.inodes| && k <= INDIRECT
    ensures Slot(Merge(u, t, f).img, i, k) == if i in f.inums then Slot(t.img, i, k) else Slot(u.img, i, k)
  {
    hide Solid, OwnersHold;
    var side := if i in f.inums then t else u;
    var ind := Slot(side.img, i, INDIRECT);
    if ind != 0 {
      assert ind in side.owner && side.owner[ind] == Ref(i, INDIRECT);
    }
  }

  lemma MergeSides(pl: Places, u: Snap, t: Snap, f: Foot)
    requires Sound(pl, t) && Sound(pl, u) && Own(t, f) && Own(u, f)
    requires SameSize(u, t)
    ensures Sided(u, t, f, Merge(u, t, f))
  {
    hide Solid, OwnersHold, SlotsOwned, Slot;
    forall i, k | 0 <= i < |u.img.inodes| && 0 <= k <= INDIRECT
      ensures Slot(Merge(u, t, f).img, i, k) == if i in f.inums then Slot(t.img, i, k) else Slot(u.img, i, k)
    {
      MergeSlot(pl, u, t, f, i, k);
    }
  }

  lemma MergeSlotsOwned(u: Snap, t: Snap, f: Foot)
    requires Shaped(t.img) && Shaped(u.img) && SlotsOwned(t.img, t.owner) && SlotsOwned(u.img, u.owner) && Own(t, f) && Own(u, f)
    requires SameSize(u, t)
    requires Sided(u, t, f, Merge(u, t, f))
    ensures SlotsOwned(Merge(u, t, f).img, Merge(u, t, f).owner)
  {
    hide Slot;
    var m := Merge(u, t, f);
    forall i, k | 0 <= i < |m.img.inodes| && 0 <= k <= INDIRECT && Slot(m.img, i, k) != 0
      ensures Slot(m.img, i, k) in m.owner && m.owner[Slot(m.img, i, k)] == Ref(i, k)
    {
      var side := if i in f.inums then t else u;
      assert Slot(m.img, i, k) == Slot(side.img, i, k) && Slot(side.img, i, k) in side.owner;
    }
  }

  lemma MergeOwnersHold(pl: Places, u: Snap, t: Snap, f: Foot)
    requires Shaped(t.img) && Shaped(u.img) && Own(t, f) && Own(u, f)
    requires OwnersHold(pl.nmeta, t.bits, t.img, t.owner) && OwnersHold(pl.nmeta, u.bits, u.img, u.owner)
    requires SameSize(u, t)
    requires Sided(u, t, f, Merge(u, t, f))
    ensures OwnersHold(pl.nmeta, Merge(u, t, f).bits, Merge(u, t, f).img, Merge(u, t, f).owner)
  {
    hide Slot;
    var m := Merge(u, t, f);
    forall b | b in m.owner
      ensures 0 < pl.nmeta <= b < |m.bits| && m.bits[b] && m.owner[b].inum < |m.img.inodes| && m.owner[b].slot <= INDIRECT
      ensures Slot(m.img, m.owner[b].inum, m.owner[b].slot) == b
    {
      var side := if b in f.blocks then t else u;
      assert b in side.owner && Slot(side.img, side.owner[b].inum, side.owner[b].slot) == b;
    }
  }

  lemma MergeSolid(u: Snap, t: Snap, f: Foot)
    requires Solid(t.img) && Solid(u.img)
    requires SameSize(u, t)
    requires Sided(u, t, f, Merge(u, t, f))
    ensures Solid(Merge(u, t, f).img)
  {
    hide Slot;
  }

  lemma MergeSound(pl: Places, u: Snap, t: Snap, f: Foot)
    requires Sound(pl, t) && Sound(pl, u) && Own(t, f) && Own(u, f)
    requires SameSize(u, t)
    ensures Sound(pl, Merge(u, t, f))
  {
    hide Solid, OwnersHold, SlotsOwned, Slot, Sided, Own;
    assert Shaped(t.img) && Shaped(u.img);
    MergeSides(pl, u, t, f);
    MergeSlotsOwned(u, t, f);
    MergeOwnersHold(pl, u, t, f);
    MergeSolid(u, t, f);
    MergeBits(pl, u, t, f);
  }

  lemma MergeBits(pl: Places, u: Snap, t: Snap, f: Foot)
    requires Sound(pl, t) && Sound(pl, u) && Own(t, f) && Own(u, f) && SameSize(u, t)
    ensures var m := Merge(u, t, f);
            && (forall b | 0 <= b < pl.nmeta :: m.bits[b]) && (forall b | pl.nmeta <= b < |m.bits| && m.bits[b] :: b in m.owner)
  {
    hide Solid, OwnersHold, SlotsOwned, Own;
  }

  /** Whoever keeps to other parts leaves the blocks of `f` with their owners. */
  lemma OthersOwn(s: Snap, u: Snap, f: Foot, g: Foot)
    requires Own(s, f) && Confined(s, u, g) && f.Apart(g)
    ensures Own(u, f)
  {
    forall b | b in u.owner ensures b in f.blocks <==> u.owner[b].inum in f.inums {
      if b !in g.blocks {
        assert SameOwner(s.owner, u.owner, b);
      }
    }
  }

  lemma MergeJournaled(pl: Places, s: Snap, t: Snap, u: Snap, f: Foot, g: Foot)
    requires Journaled(pl.bmapstart, pl.inodestart, s, t) && Unchanged(s, t, f) && Unchanged(s, u, g) && f.Apart(g)
    ensures Journaled(pl.bmapstart, pl.inodestart, u, Merge(u, t, f))
  {
  }

  lemma MergeUnchanged(s: Snap, t: Snap, u: Snap, f: Foot, g: Foot)
    requires Unchanged(s, t, f) && Unchanged(s, u, g) && f.Apart(g)
    ensures Unchanged(u, Merge(u, t, f), f) && Unchanged(t, Merge(u, t, f), g)
  {
    var m := Merge(u, t, f);
    forall b: nat | b !in f.blocks ensures SameOwner(u.owner, m.owner, b) {
    }
    forall b: nat | b !in g.blocks ensures SameOwner(t.owner, m.owner, b) {
      assert SameOwner(s.owner, u.owner, b);
      assert b !in f.blocks ==> SameOwner(s.owner, t.owner, b);
    }
  }

  lemma MergeOwn(u: Snap, t: Snap, f: Foot, g: Foot)
    requires SameSize(u, t)
    requires Own(t, f) && Own(u, f) && Own(t, g) && Own(u, g)
    ensures Own(Merge(u, t, f), f) && Own(Merge(u, t, f), g)
  {
  }

  lemma MergeContent(pl: Places, u: Snap, t: Snap, f: Foot, i: nat)
    requires Sound(pl, t) && Sound(pl, u) && Own(t, f) && Own(u, f) && i < |u.img.inodes|
    requires SameSize(u, t)
    requires Solid(Merge(u, t, f).img) && Sided(u, t, f, Merge(u, t, f))
    ensures Content(Merge(u, t, f).img, i) == Content(if i in f.inums then t.img else u.img, i)
  {
    hide OwnersHold, Slot;
    var m, side := Merge(u, t, f), if i in f.inums then t else u;
    forall o | 0 <= o < side.img.inodes[i].size ensures ByteAt(m.img, i, o) == ByteAt(side.img, i, o) {
      var b := Slot(side.img, i, o / BSIZE);
      assert Slot(m.img, i, o / BSIZE) == b;
      assert b != 0 ==> b in side.owner && side.owner[b].inum == i;
    }
  }

  /** A transaction that was worked out from the state before another one, and
      that touches none of its parts, can be made after it: it is a step from
      there, it makes the same changes, and it keeps to the same parts. */
  lemma Commutes(pl: Places, s: Snap, t: Snap, u: Snap, f: Foot, g: Foot)
    requires Step(pl, s, t) && Confined(s, t, f) && Sound(pl, u) && Confined(s, u, g) && f.Apart(g)
    ensures SameSize(u, t)
    ensures var m := Merge(u, t, f); Step(pl, u, m) && Confined(u, m, f) && Confined(t, m, g)
    ensures forall i | 0 <= i < |u.img.inodes| ::
              Content(Merge(u, t, f).img, i) == Content(if i in f.inums then t.img else u.img, i)
  {
    OthersOwn(s, u, f, g);
    OthersOwn(s, t, g, f);
    MergeOwn(u, t, f, g);
    MergeUnchanged(s, t, u, f, g);
    MergeJournaled(pl, s, t, u, f, g);
    MergeSound(pl, u, t, f);
    MergeSides(pl, u, t, f);
    hide Owned, Sided, Own, Merge, Journaled;
    forall i | 0 <= i < |u.img.inodes|
      ensures Content(Merge(u, t, f).img, i) == Content(if i in f.inums then t.img else u.img, i)
    {
      MergeContent(pl, u, t, f, i);
    }
  }

  lemma ConfinedNone(s: Snap)
    ensures Confined(s, s, NoFoot)
  {
  }

  /** With nothing in between, the merged state is the one worked out. */
  lemma MergeSelf(s: Snap, t: Snap, f: Foot)
    requires Unchanged(s, t, f)
    ensures Merge(s, t, f) == t
  {
    var m := Merge(s, t, f);
    assert m.bits == t.bits && m.img.blocks == t.img.blocks && m.img.inodes == t.img.inodes;
    forall b: nat ensures SameOwner(t.owner, m.owner, b) {
      assert b !in f.blocks ==> SameOwner(s.owner, t.owner, b);
    }
    assert m.owner == t.owner;
  }

  /** Two transactions worked out from the same state, one after the other. */
  lemma Both(pl: Places, s: Snap, t: Snap, u: Snap, f: Foot, g: Foot)
    requires Sound(pl, s) && Step(pl, s, t) && Confined(s, t, f) && Step(pl, s, u) && Confined(s, u, g) && f.Apart(g)
    ensures SameSize(s, t) && SameSize(s, u) && SameSize(Merge(s, t, f), u)
    ensures var v := Merge(s, t, f);
            var x := Merge(v, u, g);
            && Confined(s, v, f) && Sound(pl, v) && Sound(pl, x) && |x.img.inodes| == |s.img.inodes|
            && (forall i | 0 <= i < |s.img.inodes| && i in f.inums :: Content(x.img, i) == Content(t.img, i))
            && (forall i | 0 <= i < |s.img.inodes| && i in g.inums :: Content(x.img, i) == Content(u.img, i))
  {
    ConfinedNone(s);
    hide Own, Unchanged, Journaled, Solid, Owned;
    Commutes(pl, s, t, s, f, NoFoot);
    var v := Merge(s, t, f);
    Commutes(pl, s, u, v, g, f);
    hide Merge;
  }

  // ---------------------------------------------------------------- half-done blocks

  /** Disk block `b` may hold `blk` in state `s`, the parts in `f` aside. */
  predicate BlockOkBut(pl: Places, s: Snap, b: nat, blk: Block, f: Foot) {
    && (pl.nmeta <= b < |s.img.blocks| && b !in f.blocks ==> blk == s.img.blocks[b])
    && (forall c | 0 <= c < |s.bits| && c / BPB + pl.bmapstart == b && c !in f.blocks :: BitOf(blk, c % BPB) == s.bits[c])
    && (forall i | 0 <= i < |s.img.inodes| && i / IPB + pl.inodestart == b && i !in f.inums :: InodeOf(blk, i % IPB) == s.img.inodes[i])
  }

  /** Block `b` was `was` and is `now`, and only parts in `f` changed; `s` says
      how many blocks and inodes there are. */
  predicate ChangesOnly(pl: Places, s: Snap, b: nat, was: Block, now: Block, f: Foot) {
    && (pl.nmeta <= b < |s.img.blocks| && b !in f.blocks ==> now == was)
    && (forall c | 0 <= c < |s.bits| && c / BPB + pl.bmapstart == b && c !in f.blocks :: BitOf(now, c % BPB) == BitOf(was, c % BPB))
    && (forall i | 0 <= i < |s.img.inodes| && i / IPB + pl.inodestart == b && i !in f.inums :: InodeOf(now, i % IPB) == InodeOf(was, i % IPB))
  }

  lemma OkButNothing(pl: Places, s: Snap, b: nat, blk: Block)
    ensures BlockOkBut(pl, s, b, blk, NoFoot) == BlockOk(pl, s, b, blk)
  {
    hide BitOf, InodeOf;
  }

  lemma OkButMore(pl: Places, s: Snap, b: nat, blk: Block, f: Foot, g: Foot)
    requires BlockOkBut(pl, s, b, blk, f) && f.Within(g)
    ensures BlockOkBut(pl, s, b, blk, g)
  {
    hide BitOf, InodeOf;
  }

  /** A block the transaction announced is right but for the parts it may change,
      any other is as right as it was. */
  lemma OkButAnnounced(pl: Places, s: Snap, t: Snap, b: nat, blk: Block, f: Foot, g: Foot)
    requires BlockOkBut(pl, s, b, blk, g) && Journaled(pl.bmapstart, pl.inodestart, s, t) && Unchanged(s, t, f)
    ensures BlockOkBut(pl, t, b, blk, if b in t.logged then g.Plus(f) else g)
  {
    hide BitOf, InodeOf;
  }

  lemma OkButChanged(pl: Places, s: Snap, b: nat, was: Block, now: Block, f: Foot, g: Foot)
    requires BlockOkBut(pl, s, b, was, g) && ChangesOnly(pl, s, b, was, now, f) && f.Within(g)
    ensures BlockOkBut(pl, s, b, now, g)
  {
    hide BitOf, InodeOf;
  }
}
