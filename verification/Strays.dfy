/** Data that a failing `writei` leaves in a buffer without logging it
    (kernel/fs.c): processes see it, the log does not know of it, and it becomes
    durable only if somebody logs its block later. */
module Strays {
  import opened Bytes
  import opened FileSystem
  import opened Footprints
  import opened Inodes
  import opened OnDisk
  import opened Params
  import opened Sequences
  import opened Space

  /** What processes see in `v` of the state `s`: all of it, except that blocks in
      `stray`, none of them an indirect block, hold changes that nobody logged. */
  predicate Seen(s: Snap, v: Snap, stray: set<nat>) {
    && v.bits == s.bits && v.img.inodes == s.img.inodes && v.owner == s.owner && |v.img.blocks| == |s.img.blocks|
    && (forall b | 0 <= b < |s.img.blocks| && b !in stray :: v.img.blocks[b] == s.img.blocks[b])
    && (forall b | b in stray && b in s.owner :: s.owner[b].slot != INDIRECT)
  }

  lemma SeenSlots(pl: Places, s: Snap, v: Snap, stray: set<nat>)
    requires Sound(pl, v) && Seen(s, v, stray)
    ensures SameSlots(v.img, s.img)
  {
    hide NoHoles, OwnersHold;
    forall j | 0 <= j < |v.img.inodes| && v.img.inodes[j].addrs[NDIRECT] != 0
      ensures v.img.inodes[j].addrs[NDIRECT] !in stray
    {
      assert Slot(v.img, j, INDIRECT) == v.img.inodes[j].addrs[NDIRECT];
    }
  }

  /** Stray data cannot make a state unsound, or hide that it is. */
  lemma SeenSound(pl: Places, s: Snap, v: Snap, stray: set<nat>)
    requires Sound(pl, v) && Seen(s, v, stray)
    ensures Sound(pl, s)
  {
    SeenSlots(pl, s, v, stray);
    SameSlotsOwned(pl.nmeta, v.bits, v.img, s.img, v.owner);
    hide Slot, SlotsOwned, OwnersHold;
  }

  /** The bytes of a file that are seen are its own, but for those in stray blocks. */
  lemma SeenBytes(pl: Places, s: Snap, v: Snap, stray: set<nat>, j: nat, o: nat)
    requires Sound(pl, v) && Seen(s, v, stray) && j < |s.img.inodes| && o < s.img.inodes[j].size
    ensures Sound(pl, s) && o < MAXFILE * BSIZE && |Content(v.img, j)| == |Content(s.img, j)|
    ensures Slot(s.img, j, o / BSIZE) !in stray ==> Content(v.img, j)[o] == Content(s.img, j)[o]
  {
    SeenSound(pl, s, v, stray);
    SeenSlots(pl, s, v, stray);
    hide NoHoles, SlotsOwned, OwnersHold, Slot;
    assert Slot(v.img, j, o / BSIZE) == Slot(s.img, j, o / BSIZE);
  }

  /** The state the log gets to know: `u`, with the contents of `s` in stray blocks. */
  function Settled(s: Snap, u: Snap, stray: set<nat>, logged: set<nat>): Snap
    requires |u.img.blocks| == |s.img.blocks|
  {
    Snap(u.bits,
         Image(seq(|s.img.blocks|, b requires 0 <= b < |s.img.blocks| => if b in stray then s.img.blocks[b] else u.img.blocks[b]),
               u.img.inodes),
         logged, u.owner)
  }

  /** Blocks of file `i` that were logged are stray no more. */
  function StillStray(u: Snap, i: nat, logged: set<nat>, stray: set<nat>): set<nat> {
    set b | b in stray && !(b in logged && b in u.owner && u.owner[b].inum == i)
  }

  /** The leaked block is a data block of the file. */
  predicate LeakOf(u: Snap, i: nat, leaked: set<nat>) {
    forall b | b in leaked :: b in u.owner && u.owner[b].inum == i && u.owner[b].slot != INDIRECT
  }

  lemma SettledSeen(s: Snap, v: Snap, stray: set<nat>, u: Snap, i: nat, leaked: set<nat>, logged: set<nat>)
    requires Seen(s, v, stray) && Grew(v, u, i) && NewLogged(v, u) && LeakOf(u, i, leaked) && u.logged <= logged
    requires |u.img.blocks| == |s.img.blocks|
    ensures var left := StillStray(u, i, logged, stray + leaked); Seen(Settled(s, u, left, logged), u, left)
  {
  }

  lemma SettledGrew(s: Snap, v: Snap, stray: set<nat>, u: Snap, i: nat, leaked: set<nat>, logged: set<nat>)
    requires Seen(s, v, stray) && Grew(v, u, i) && |u.img.blocks| == |s.img.blocks|
    ensures var left := StillStray(u, i, logged, stray + leaked); Grew(s, Settled(s, u, left, logged), i)
  {
  }

  lemma SettledJournaled(pl: Places, s: Snap, v: Snap, stray: set<nat>, u: Snap, i: nat, leaked: set<nat>, logged: set<nat>)
    requires Seen(s, v, stray) && Grew(v, u, i) && JournaledBut(pl.bmapstart, pl.inodestart, v, u, leaked) && u.logged <= logged
    ensures var left := StillStray(u, i, logged, stray + leaked);
            Journaled(pl.bmapstart, pl.inodestart, s, Settled(s, u, left, logged))
  {
  }

  /** A transaction that leaks, made by a process that sees stray data: the log
      gets to know a step, and afterwards processes see what the transaction
      made of it, stray data and leak included.  If the leaked block is in the log
      already, the leak goes there too (`caught`). */
  lemma WriteSeen(pl: Places, s: Snap, v: Snap, stray: set<nat>, u: Snap, i: nat, leaked: set<nat>, caught: bool)
    returns (t: Snap, left: set<nat>)
    requires Seen(s, v, stray) && Sound(pl, v) && Sound(pl, u) && Grew(v, u, i) && LeakOf(u, i, leaked)
    requires JournaledBut(pl.bmapstart, pl.inodestart, v, u, leaked) && |u.logged + leaked| <= MAXOPBLOCKS
    ensures Step(pl, s, t) && Confined(s, t, FootOf(s, t, i)) && Seen(t, u, left)
    ensures left <= stray + leaked && t.logged == if caught then u.logged + leaked else u.logged
    ensures caught ==> left !! leaked
  {
    var logged := if caught then u.logged + leaked else u.logged;
    left := StillStray(u, i, logged, stray + leaked);
    SettledJournaled(pl, s, v, stray, u, i, leaked, logged);
    SettledSeen(s, v, stray, u, i, leaked, logged);
    SettledGrew(s, v, stray, u, i, leaked, logged);
    hide Seen, Grew, Settled, Sound, JournaledBut, Confined;
    t := Settled(s, u, left, logged);
    SeenSound(pl, s, v, stray);
    SeenSound(pl, t, u, left);
    GrewConfined(pl, s, t, i);
    SubsetSize(u.logged, u.logged + leaked);
    assert t.logged == logged by {
      SettledLogged(s, u, left, logged);
    }
  }

  lemma SettledLogged(s: Snap, u: Snap, stray: set<nat>, logged: set<nat>)
    requires |u.img.blocks| == |s.img.blocks|
    ensures Settled(s, u, stray, logged).logged == logged
  {
  }

  /** A truncation by a process that sees stray data. */
  lemma TruncSeen(pl: Places, s: Snap, v: Snap, stray: set<nat>, u: Snap, i: nat) returns (t: Snap)
    requires Seen(s, v, stray) && Sound(pl, v) && Sound(pl, u) && Shrunk(v, u, i)
    requires Journaled(pl.bmapstart, pl.inodestart, v, u) && |u.logged| <= MAXOPBLOCKS
    ensures Step(pl, s, t) && Confined(s, t, FootOf(s, t, i)) && Seen(t, u, stray) && t.logged == u.logged
  {
    hide Owned, Solid, Confined, FootOf;
    t := Settled(s, u, stray, u.logged);
    assert t.img.blocks == s.img.blocks;
    SeenSound(pl, s, v, stray);
    SeenSound(pl, t, u, stray);
    ShrunkConfined(pl, s, t, i);
  }
}
