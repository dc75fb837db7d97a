/** The driver code of kernel/virtio_disk.c, step by step against the queue it keeps. */
module VirtioDisk {
  import Bytes
  import opened Options
  import opened Virtqueue

  /** `i` is one of the descriptors in `idx`, from place `from` on. */
  predicate Among(idx: seq<nat>, from: nat, i: nat) {
    exists k :: from <= k < |idx| && idx[k] == i
  }

  /** Of the descriptors free in `was`, those in `idx` from place `from` on are taken. */
  predicate Took(was: seq<bool>, free: seq<bool>, idx: seq<nat>, from: nat) {
    |free| == |was| && forall i | 0 <= i < |was| :: free[i] <==> was[i] && !Among(idx, from, i)
  }

  /** The lowest free descriptors, in order. */
  predicate Lowest(free: seq<bool>, idx: seq<nat>) {
    && (forall k | 0 <= k < |idx| :: idx[k] < |free| && free[idx[k]])
    && (forall j, k | 0 <= j < k < |idx| :: idx[j] < idx[k])
    && (forall i | 0 <= i < |free| && free[i] && !Among(idx, 0, i) :: |idx| > 0 ==> idx[|idx| - 1] < i)
  }

  /** The first sector of a block: a product of two `uint`s, before it is made a `uint64`. */
  function Sector(blockno: nat): nat {
    blockno * (Bytes.BSIZE / 512) % Bytes.UINT_MAX1
  }

  /** Two blocks have sectors of their own exactly when they are not 2^31 blocks
      apart, so a disk of up to 2^31 blocks has no block that stands for another. */
  lemma SectorsApart(b: nat, c: nat)
    requires b < c < Bytes.UINT_MAX1
    ensures Sector(b) == Sector(c) <==> c == b + 0x8000_0000
    ensures Sector(c) == c * (Bytes.BSIZE / 512) <==> c < 0x8000_0000
  {
    assert 2 * c % Bytes.UINT_MAX1 == if c < 0x8000_0000 then 2 * c else 2 * c - Bytes.UINT_MAX1;
    assert 2 * b % Bytes.UINT_MAX1 == if b < 0x8000_0000 then 2 * b else 2 * b - Bytes.UINT_MAX1;
  }

  class Disk {
    var free: seq<bool>
    var desc: seq<Desc>
    var ops: seq<Op>
    var info: seq<Option<nat>>
    var status: seq<nat>
    var availRing: seq<nat>
    var availIdx: nat
    var usedRing: seq<nat>
    var usedIdx: nat
    var seenIdx: nat
    /** The buffers whose `disk` flag is 1. */
    var busy: set<nat>
    /** The device's own: how far it has read the avail ring, and the requests it
        has taken and not finished. */
    var devIdx: nat
    var dev: set<nat>
    /** The whole queue, the device's part of it and its history included. */
    ghost var st: St

    ghost predicate Valid()
      reads this
    {
      Tied(st) && Inv(st)
    }

    /** The driver's memory is as `s` says. */
    ghost predicate Tied(s: St)
      reads this
    {
      && free == s.free && desc == s.desc && ops == s.ops && info == s.info && status == s.status
      && availRing == s.availRing && availIdx == s.availIdx && usedRing == s.usedRing && usedIdx == s.usedIdx
      && seenIdx == s.seenIdx && busy == s.busy && devIdx == s.devIdx && dev == AtDevice(s)
    }

    /** The queue as `virtio_disk_init` leaves it. */
    constructor ()
      ensures Valid() && Init(st)
    {
      var clear := seq(NUM, _ => Cleared());
      var s := St(seq(NUM, _ => true), clear, seq(NUM, _ => Op(false, 0)), seq(NUM, _ => None), seq(NUM, _ => 0),
                  seq(NUM, _ => 0), 0, seq(NUM, _ => 0), 0, 0, 0, {}, map[], seq(NUM, _ => NUM), [], 0, [], 0, []);
      free, desc, ops, info, status := s.free, s.desc, s.ops, s.info, s.status;
      availRing, availIdx, usedRing, usedIdx, seenIdx, busy := s.availRing, 0, s.usedRing, 0, 0, {};
      devIdx, dev := 0, {};
      st := s;
    }

    /** `alloc_desc`. */
    method AllocDesc() returns (r: int)
      requires |free| == NUM
      modifies this`free
      ensures r < 0 ==> free == old(free) && forall i | 0 <= i < NUM :: !free[i]
      ensures r >= 0 ==> r < NUM && old(free)[r] && (forall i | 0 <= i < r :: !old(free)[i]) && free == old(free)[r := false]
    {
      var i := 0;
      while i < NUM
        invariant 0 <= i <= NUM && free == old(free)
        invariant forall j | 0 <= j < i :: !free[j]
      {
        if free[i] {
          free := free[i := false];
          return i;
        }
        i := i + 1;
      }
      return -1;
    }

    /** `free_desc`; its panics are its preconditions. */
    method FreeDesc(i: nat)
      requires |free| == |desc| == NUM && i < NUM && !free[i]
      modifies this`free, this`desc
      ensures free == old(free)[i := true] && desc == old(desc)[i := Cleared()]
    {
      desc := desc[i := Cleared()];
      free := free[i := true];
    }

    /** `alloc3_desc`: the three lowest free descriptors, or none taken when
        fewer than three are free. */
    method Alloc3() returns (ok: bool, idx: seq<nat>)
      requires |free| == |desc| == NUM
      modifies this`free, this`desc
      ensures ok ==> |idx| == 3 && Lowest(old(free), idx) && Took(old(free), free, idx, 0) && desc == old(desc)
      ensures !ok ==> |idx| < 3 && free == old(free) && |desc| == NUM && (forall i | 0 <= i < NUM && free[i] :: Among(idx, 0, i))
      ensures !ok ==> forall i | 0 <= i < NUM && !free[i] :: desc[i] == old(desc)[i]
    {
      idx := [];
      for i := 0 to 3
        invariant |idx| == i && Lowest(old(free), idx) && Took(old(free), free, idx, 0) && desc == old(desc)
      {
        ghost var before := free;
        var d := AllocDesc();
        if d < 0 {
          GiveBack(idx, old(free));
          return false, idx;
        }
        LowestMore(old(free), before, idx, d);
        idx := idx + [d];
      }
      ok := true;
    }

    /** The failure path of `alloc3_desc`. */
    method GiveBack(idx: seq<nat>, ghost was: seq<bool>)
      requires |free| == |desc| == |was| == NUM && Lowest(was, idx) && Took(was, free, idx, 0)
      modifies this`free, this`desc
      ensures free == was && |desc| == NUM && forall i | 0 <= i < NUM && !Among(idx, 0, i) :: desc[i] == old(desc)[i]
    {
      for j := 0 to |idx|
        invariant |free| == |desc| == NUM && Took(was, free, idx, j)
        invariant forall i | 0 <= i < NUM && !Among(idx, 0, i) :: desc[i] == old(desc)[i]
      {
        NextAmong(was, idx, j);
        FreeDesc(idx[j]);
      }
    }

    /** `virtio_disk_rw` up to its wait: either the request is in the avail ring,
        or three descriptors are not free and the caller sleeps. */
    method Submit(buf: nat, blockno: nat, write: bool) returns (ok: bool, h: nat)
      requires Valid() && blockno < Bytes.UINT_MAX1 && buf !in busy && forall g | g in st.live :: st.live[g].buf != buf
      modifies this
      ensures Valid()
      ensures !ok ==> Next(old(st), AllocFails, st)
      ensures ok ==> exists i1, i2 :: Lowest(old(free), [h, i1, i2])
                       && Next(old(st), Action.Submit(buf, write, Sector(blockno), h, i1, i2), st)
    {
      hide Inv, Lowest, Next;
      ok, h := Request(buf, write, Sector(blockno));
    }

    /** The same for a sector. */
    method Request(buf: nat, write: bool, sector: nat) returns (ok: bool, h: nat)
      requires Valid() && buf !in busy && forall g | g in st.live :: st.live[g].buf != buf
      modifies this
      ensures Valid()
      ensures !ok ==> Next(old(st), AllocFails, st)
      ensures ok ==> exists i1, i2 :: Lowest(old(free), [h, i1, i2]) && Next(old(st), Action.Submit(buf, write, sector, h, i1, i2), st)
    {
      hide Inv, Took, Lowest, Among;
      ghost var s := st;
      ShapesOf(s);
      var idx;
      ok, idx := Alloc3();
      if !ok {
        FewFree(s.free, idx);
        st := s.(desc := desc);
        AllocFailsKeeps(s, st);
        return ok, 0;
      }
      h := idx[0];
      ghost var a := Action.Submit(buf, write, sector, h, idx[1], idx[2]);
      TakenThree(s.free, free, idx);
      Publish(buf, write, sector, idx);
      assert idx == [h, idx[1], idx[2]];
      assert Next(s, a, st);
    }

    /** The part of `virtio_disk_rw` from the allocated descriptors to the avail ring. */
    method Publish(buf: nat, write: bool, sector: nat, idx: seq<nat>)
      requires Tied(st.(free := free)) && Inv(st) && Shapes(st) && |idx| == 3
      requires CanSubmit(st, Action.Submit(buf, write, sector, idx[0], idx[1], idx[2]))
      requires free == st.free[idx[0] := false][idx[1] := false][idx[2] := false]
      modifies this
      ensures Valid() && st == Submitted(old(st), Action.Submit(buf, write, sector, idx[0], idx[1], idx[2]))
    {
      hide Inv, CanSubmit;
      ghost var a := Action.Submit(buf, write, sector, idx[0], idx[1], idx[2]);
      SubmitIndices(st, a);
      SubmitKeeps(st, a);
      SubmitDevice(st, a);
      Format(buf, write, sector, idx);
      busy := busy + {buf};
      info := info[idx[0] := Some(buf)];
      availRing := availRing[availIdx % NUM := idx[0]];
      availIdx := (availIdx + 1) % UINT16;
      st := Submitted(st, a);
    }

    /** The three descriptors of a request. */
    method Format(buf: nat, write: bool, sector: nat, idx: seq<nat>)
      requires |desc| == |ops| == |status| == NUM && |idx| == 3 && idx[0] < NUM && idx[1] < NUM && idx[2] < NUM
      modifies this`desc, this`ops, this`status
      ensures ops == old(ops)[idx[0] := Op(write, sector)] && status == old(status)[idx[0] := 0xff]
      ensures desc == old(desc)[idx[0] := Desc(Header(idx[0]), 16, F_NEXT, idx[1])]
                               [idx[1] := Desc(Data(buf), Bytes.BSIZE, if write then F_NEXT else F_NEXT + F_WRITE, idx[2])]
                               [idx[2] := Desc(Status(idx[0]), 1, F_WRITE, 0)]
    {
      ops := ops[idx[0] := Op(write, sector)];
      desc := desc[idx[0] := Desc(Header(idx[0]), 16, F_NEXT, idx[1])];
      var flags := if write then 0 else F_WRITE;
      flags := flags + F_NEXT;
      desc := desc[idx[1] := Desc(Data(buf), Bytes.BSIZE, flags, idx[2])];
      status := status[idx[0] := 0xff];
      desc := desc[idx[2] := Desc(Status(idx[0]), 1, F_WRITE, 0)];
    }

    /** The device takes the next entry of the avail ring. */
    method DeviceTake()
      requires Valid() && devIdx != availIdx
      modifies this`devIdx, this`dev, this`st
      ensures Valid() && Sees(old(st), st) && Unseen(st) == Unseen(old(st))
    {
      hide Inv, Sees, DeviceTakes, Unseen, AtDevice;
      ghost var s := st;
      ShapesOf(s);
      NextTaken(s);
      var g := availRing[devIdx % NUM];
      devIdx := (devIdx + 1) % UINT16;
      dev := dev + {g};
      st := At(s, g, Taken).(devIdx := devIdx, taken := s.taken + 1);
      TakenOne(s, st);
      TakeKeeps(s, st);
    }

    /** The device finishes a request that it has taken, with any status. */
    method DeviceFinish(h: nat, result: nat)
      requires Valid() && h in dev
      modifies this`dev, this`status, this`usedRing, this`usedIdx, this`st
      ensures Valid() && Sees(old(st), st) && Unseen(st) == Unseen(old(st))
    {
      hide Inv, Sees, DeviceFinishes, Unseen, AtDevice, Command;
      ghost var s := st;
      DeviceHas(s, h);
      status := status[h := result];
      usedRing := usedRing[usedIdx % NUM := h];
      usedIdx := (usedIdx + 1) % UINT16;
      dev := dev - {h};
      st := At(s, h, Finished(|s.used|)).(
              status := status, usedRing := usedRing, usedIdx := usedIdx,
              used := s.used + [h], done := s.done + [Command(s, h).value]);
      FinishedOne(s, h, result, st);
      FinishKeeps(s, h, result, st);
    }

    /** What the device may do in any stretch of time: any number of such turns. */
    method DeviceRuns()
      requires Valid()
      modifies this`devIdx, this`dev, this`status, this`usedRing, this`usedIdx, this`st
      ensures Valid() && Sees(old(st), st) && Unseen(st) == Unseen(old(st))
    {
      hide Inv, Sees, Unseen;
      SeesNone(st);
      var turns: int := *;
      while turns > 0
        invariant Valid() && Sees(old(st), st) && Unseen(st) == Unseen(old(st))
      {
        var take: bool := *;
        var h: int := *;
        var result: int := *;
        ghost var m := st;
        SeesNone(m);
        if take && devIdx != availIdx {
          DeviceTake();
        } else if h in dev && 0 <= result {
          DeviceFinish(h, result);
        }
        SeesTrans(old(st), m, st);
        turns := turns - 1;
      }
    }

    /** `virtio_disk_intr`, with the device at work all the while: every entry of
        the used ring is seen, unless the device reported an error, which is a
        panic.  However fast the device is, the loop comes to an end. */
    method Intr() returns (panicked: bool)
      requires Valid()
      modifies this`devIdx, this`dev, this`status, this`usedRing, this`usedIdx, this`busy, this`seenIdx, this`st
      ensures Valid() && Sees(old(st), st)
      ensures !panicked ==> st.seen == |st.used| && AllSeenBy(old(st), st)
      ensures panicked ==> Shapes(st) && seenIdx != usedIdx && usedRing[seenIdx % NUM] < NUM && status[usedRing[seenIdx % NUM]] != 0
    {
      hide Inv, Sees, Unseen, AllSeenBy, AtDevice;
      DeviceRuns();
      while seenIdx != usedIdx
        invariant Valid() && Sees(old(st), st)
        decreases |Unseen(st)|
      {
        ghost var s := st;
        var bad := SeeOne();
        if bad {
          return true;
        }
        SeesTrans(old(st), s, st);
        s := st;
        DeviceRuns();
        SeesTrans(old(st), s, st);
      }
      AllSeen(st);
      EverySeen(old(st), st);
      panicked := false;
    }

    /** One pass of its loop. */
    method SeeOne() returns (bad: bool)
      requires Valid() && seenIdx != usedIdx
      modifies this`busy, this`seenIdx, this`st
      ensures Valid() && Shapes(st) && usedRing[old(seenIdx) % NUM] < NUM
      ensures bad <==> status[usedRing[old(seenIdx) % NUM]] != 0
      ensures bad ==> st == old(st) && seenIdx == old(seenIdx)
      ensures !bad ==> Next(old(st), IntrOne, st) && Sees(old(st), st) && |Unseen(st)| < |Unseen(old(st))|
    {
      hide Inv, Sees, IntrSees, Unseen, AtDevice;
      ghost var s := st;
      ShapesOf(s);
      NextUsed(s);
      var id := usedRing[seenIdx % NUM];
      if status[id] != 0 {
        return true;
      }
      var b := info[id].value;
      busy := busy - {b};
      seenIdx := (seenIdx + 1) % UINT16;
      st := At(s, id, Seen(s.seen)).(busy := busy, seenIdx := seenIdx, seen := s.seen + 1);
      SeenOne(s, st);
      IntrKeeps(s, st);
      ShapesOf(st);
      bad := false;
    }

    /** `free_chain`, from the head of a request. */
    method FreeChain(h: nat, ghost r: Req)
      requires Shapes(st) && ChainOk(st, h, r) && !st.free[h] && !st.free[r.mid] && !st.free[r.last] && free == st.free && desc == st.desc
      modifies this`free, this`desc
      ensures free == old(free)[h := true][r.mid := true][r.last := true]
      ensures desc == old(desc)[h := Cleared()][r.mid := Cleared()][r.last := Cleared()]
    {
      var i, going := h, true;
      ghost var n := 0;
      while going
        invariant n <= 3 && |free| == |desc| == NUM
        invariant n == 0 ==> i == h && going && free == old(free) && desc == old(desc)
        invariant n == 1 ==> i == r.mid && going && free == old(free)[h := true] && desc == old(desc)[h := Cleared()]
        invariant n == 2 ==> i == r.last && going && free == old(free)[h := true][r.mid := true]
                             && desc == old(desc)[h := Cleared()][r.mid := Cleared()]
        invariant n == 3 ==> !going && free == old(free)[h := true][r.mid := true][r.last := true]
                             && desc == old(desc)[h := Cleared()][r.mid := Cleared()][r.last := Cleared()]
        decreases 3 - n
      {
        var flags, nxt := desc[i].flags, desc[i].next;
        FreeDesc(i);
        if flags % 2 == 1 {
          i := nxt;
        } else {
          going := false;
        }
        n := n + 1;
      }
    }

    /** The end of `virtio_disk_rw`, once the buffer's `disk` flag is 0. */
    method Retire(h: nat)
      requires Valid() && h in st.live && st.live[h].buf !in busy
      modifies this`info, this`free, this`desc, this`st
      ensures Valid() && Next(old(st), Action.Retire(h), st)
    {
      hide Inv;
      ghost var s := st;
      InvGives(s, h);
      RetireKeeps(s, h);
      RetireDevice(s, h);
      info := info[h := None];
      FreeChain(h, s.live[h]);
      st := Retired(s, h);
    }
  }

  lemma SubmitIndices(s: St, a: Action)
    requires Shapes(s) && a.Submit? && CanSubmit(s, a)
    ensures a.i0 < NUM && a.i1 < NUM && a.i2 < NUM
  {
  }

  lemma ShapesOf(s: St)
    requires Inv(s)
    ensures Shapes(s)
  {
  }

  lemma InvGives(s: St, h: nat)
    requires Inv(s) && h in s.live
    ensures Shapes(s) && ChainOk(s, h, s.live[h]) && !s.free[h] && !s.free[s.live[h].mid] && !s.free[s.live[h].last]
  {
    HeadOf(s, h);
  }

  /** The next descriptor to give back is taken and not given back later. */
  lemma NextAmong(was: seq<bool>, idx: seq<nat>, j: nat)
    requires Lowest(was, idx) && j < |idx|
    ensures idx[j] < |was| && was[idx[j]] && Among(idx, 0, idx[j]) && Among(idx, j, idx[j]) && !Among(idx, j + 1, idx[j])
    ensures forall i :: Among(idx, j, i) <==> i == idx[j] || Among(idx, j + 1, i)
  {
  }

  lemma TakenThree(was: seq<bool>, free: seq<bool>, idx: seq<nat>)
    requires |was| == NUM && |idx| == 3 && Lowest(was, idx) && Took(was, free, idx, 0)
    ensures idx[0] < NUM && idx[1] < NUM && idx[2] < NUM && idx[0] != idx[1] && idx[0] != idx[2] && idx[1] != idx[2]
    ensures was[idx[0]] && was[idx[1]] && was[idx[2]]
    ensures free == was[idx[0] := false][idx[1] := false][idx[2] := false]
  {
    forall i ensures Among(idx, 0, i) <==> i == idx[0] || i == idx[1] || i == idx[2] {
    }
  }

  lemma LowestMore(was: seq<bool>, free: seq<bool>, idx: seq<nat>, d: nat)
    requires Lowest(was, idx) && Took(was, free, idx, 0) && d < |was| && free[d] && forall i | 0 <= i < d :: !free[i]
    ensures Lowest(was, idx + [d]) && Took(was, free[d := false], idx + [d], 0)
  {
    var all := idx + [d];
    forall i ensures Among(all, 0, i) <==> Among(idx, 0, i) || i == d {
      if k :| 0 <= k < |idx| && idx[k] == i {
        assert all[k] == i;
      }
      assert all[|idx|] == d;
    }
    forall k | 0 <= k < |idx| ensures idx[k] < d {
    }
  }

  lemma FewFree(free: seq<bool>, idx: seq<nat>)
    requires |free| == NUM && |idx| < 3 && forall i | 0 <= i < NUM && free[i] :: Among(idx, 0, i)
    ensures forall i, j, k | 0 <= i < j < k < NUM :: !free[i] || !free[j] || !free[k]
  {
  }

  /** The requests the device has taken and not finished. */
  function AtDevice(s: St): set<nat> {
    set h | h in s.live && s.live[h].stage.Taken?
  }

  /** The requests the interrupt handler has yet to see. */
  function Unseen(s: St): set<nat> {
    set h | h in s.live && !s.live[h].stage.Seen?
  }

  lemma SubmitDevice(s: St, a: Action)
    requires Inv(s) && a.Submit? && CanSubmit(s, a)
    ensures AtDevice(Submitted(s, a)) == AtDevice(s)
  {
    hide Rings, Stages;
    FreeNotLive(s);
  }

  lemma RetireDevice(s: St, h: nat)
    requires Inv(s) && Shapes(s) && h in s.live && h < NUM && s.live[h].mid < NUM && s.live[h].last < NUM && s.live[h].buf !in s.busy
    ensures AtDevice(Retired(s, h)) == AtDevice(s)
  {
    hide Rings, Chains;
    assert StageOk(s, h, s.live[h]);
  }

  /** A request moves from the avail ring to the device, to the used ring, and to
      the handler, which keeps its place in the used ring. */
  predicate Later(g: Stage, k: Stage) {
    match k
    case Queued(_) => g == k
    case Taken => g.Queued? || g.Taken?
    case Finished(_) => g.Queued? || g.Taken? || g == k
    case Seen(at) => g.Queued? || g.Taken? || g == Finished(at) || g == k
  }

  /** The device and the handler went on: both rings' histories grew, requests
      moved on, and nothing that is the driver's own changed. */
  predicate Sees(s: St, t: St) {
    && t == s.(status := t.status, usedRing := t.usedRing, usedIdx := t.usedIdx, devIdx := t.devIdx, busy := t.busy,
               live := t.live, seenIdx := t.seenIdx, taken := t.taken, used := t.used, seen := t.seen, done := t.done)
    && s.taken <= t.taken && s.used <= t.used && s.done <= t.done && s.seen <= t.seen
    && t.live.Keys == s.live.Keys
    && forall h | h in s.live :: t.live[h] == s.live[h].(stage := t.live[h].stage) && Later(s.live[h].stage, t.live[h].stage)
  }

  /** Every request that was finished has been seen, at its place. */
  predicate AllSeenBy(s: St, t: St) {
    forall h | h in s.live && s.live[h].stage.Finished? :: h in t.live && t.live[h].stage == Seen(s.live[h].stage.at)
  }

  lemma SeesNone(s: St)
    ensures Sees(s, s)
  {
  }

  lemma SeesTrans(s: St, m: St, t: St)
    requires Sees(s, m) && Sees(m, t)
    ensures Sees(s, t)
  {
    forall h | h in s.live
      ensures h in t.live && t.live[h] == s.live[h].(stage := t.live[h].stage) && Later(s.live[h].stage, t.live[h].stage)
    {
      assert h in m.live;
    }
  }

  lemma EverySeen(s: St, t: St)
    requires Sees(s, t) && Inv(t) && t.seen == |t.used|
    ensures AllSeenBy(s, t)
  {
    hide Chains, Rings;
    forall h | h in s.live && s.live[h].stage.Finished? ensures h in t.live && t.live[h].stage == Seen(s.live[h].stage.at) {
      assert StageOk(t, h, t.live[h]);
    }
  }

  lemma NextTaken(s: St)
    requires Inv(s) && s.devIdx != s.availIdx && Shapes(s)
    ensures var g := s.availRing[s.devIdx % NUM]; g in s.live && s.live[g].stage.Queued?
  {
    hide Chains;
    NextQueued(s);
  }

  lemma TakenOne(s: St, t: St)
    requires Inv(s) && Shapes(s) && s.devIdx != s.availIdx
    requires var g := s.availRing[s.devIdx % NUM];
             && g in s.live && s.live[g].stage.Queued?
             && t == s.(live := s.live[g := s.live[g].(stage := Taken)], devIdx := (s.devIdx + 1) % UINT16, taken := s.taken + 1)
    ensures DeviceTakes(s, t) && Sees(s, t) && Unseen(t) == Unseen(s)
    ensures AtDevice(t) == AtDevice(s) + {s.availRing[s.devIdx % NUM]}
  {
    hide Inv;
  }

  lemma DeviceHas(s: St, h: nat)
    requires Inv(s) && h in AtDevice(s)
    ensures Shapes(s) && h in s.live && h < NUM && s.live[h].stage == Taken && Command(s, h).Some?
  {
    hide Rings, Stages;
    HeadOf(s, h);
    CommandOf(s, h);
  }

  lemma FinishedOne(s: St, h: nat, result: nat, t: St)
    requires Shapes(s) && h in s.live && h < NUM && s.live[h].stage == Taken && Command(s, h).Some?
    requires t == s.(live := s.live[h := s.live[h].(stage := Finished(|s.used|))],
                     status := s.status[h := result], usedRing := s.usedRing[s.usedIdx % NUM := h], usedIdx := (s.usedIdx + 1) % UINT16,
                     used := s.used + [h], done := s.done + [Command(s, h).value])
    ensures DeviceFinishes(s, h, result, t) && Sees(s, t) && Unseen(t) == Unseen(s) && AtDevice(t) == AtDevice(s) - {h}
  {
    hide Command;
  }

  lemma SeenOne(s: St, t: St)
    requires Inv(s) && s.seenIdx != s.usedIdx
    requires Shapes(s)
    requires var id := s.usedRing[s.seenIdx % NUM];
             && id in s.live && id < NUM && s.status[id] == 0 && s.info[id].Some?
             && t == s.(live := s.live[id := s.live[id].(stage := Seen(s.seen))], busy := s.busy - {s.info[id].value},
                        seenIdx := (s.seenIdx + 1) % UINT16, seen := s.seen + 1)
    ensures IntrSees(s, t) && Sees(s, t) && |Unseen(t)| < |Unseen(s)| && AtDevice(t) == AtDevice(s)
  {
    hide Inv;
    NextUsed(s);
    var id := s.usedRing[s.seenIdx % NUM];
    MovedOne(s, t, id, Seen(s.seen));
    assert Unseen(s) == Unseen(t) + {id};
  }

  /** One request moves on. */
  lemma MovedOne(s: St, t: St, h: nat, g: Stage)
    requires h in s.live && t.live == s.live[h := s.live[h].(stage := g)] && Later(s.live[h].stage, g)
    ensures t.live.Keys == s.live.Keys
    ensures forall k | k in s.live :: t.live[k] == s.live[k].(stage := t.live[k].stage) && Later(s.live[k].stage, t.live[k].stage)
  {
  }

  lemma AllSeen(s: St)
    requires Inv(s) && s.seenIdx == s.usedIdx
    ensures s.seen == |s.used|
  {
    Waiting(|s.used|, s.seen);
  }
}
