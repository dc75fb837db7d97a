/** Descriptors and rings of kernel/virtio_disk.c (sections 2.6 and 5.2 of
    VIRTIO 1.1), with the device as an independent party. */
module Virtqueue {
  import Bytes
  import opened Options
  import opened Sequences
  import WrappedRing

  const NUM: nat := 8
  const UINT16: nat := 0x1_0000
  const F_NEXT: nat := 1
  const F_WRITE: nat := 2

  /** What a descriptor points to: a request header, a buffer's data, or a status byte. */
  datatype Addr = Null | Header(i: nat) | Data(buf: nat) | Status(i: nat)
  datatype Desc = Desc(addr: Addr, len: nat, flags: nat, next: nat)
  datatype Op = Op(write: bool, sector: nat)

  /** How far a request has come: in the avail ring, with the device, in the
      used ring, or seen by the interrupt handler. */
  datatype Stage = Queued(at: nat) | Taken | Finished(at: nat) | Seen(at: nat)

  /** A request in flight: the rest of its chain, what it asks for, and how many
      requests the device had carried out when it was made. */
  datatype Req = Req(mid: nat, last: nat, buf: nat, write: bool, sector: nat, since: nat, stage: Stage)

  /** A command the device has carried out. */
  datatype Did = Did(write: bool, sector: nat, buf: nat)

  /** The driver's and the device's state; from `live` on, the history that explains it. */
  datatype St = St(
    free: seq<bool>, desc: seq<Desc>, ops: seq<Op>, info: seq<Option<nat>>, status: seq<nat>,
    availRing: seq<nat>, availIdx: nat, usedRing: seq<nat>, usedIdx: nat, seenIdx: nat, devIdx: nat, busy: set<nat>,
    live: map<nat, Req>, part: seq<nat>, avail: seq<nat>, taken: nat, used: seq<nat>, seen: nat, done: seq<Did>)

  // ---------------------------------------------------------------- what the device reads

  predicate HasNext(d: Desc) { d.flags % 2 == 1 }

  /** The command at the head of a three-descriptor chain, as section 5.2.6 lays it out. */
  function Command(s: St, h: nat): Option<Did> {
    if h < |s.desc| && HasNext(s.desc[h]) && s.desc[h].next < |s.desc| && s.desc[h].addr.Header? && s.desc[h].addr.i < |s.ops| then
      var d := s.desc[s.desc[h].next];
      if HasNext(d) && d.next < |s.desc| && d.addr.Data? && d.len == Bytes.BSIZE then
        var e := s.desc[d.next];
        var op := s.ops[s.desc[h].addr.i];
        if !HasNext(e) && e.addr == Status(h) && e.len == 1 && e.flags == F_WRITE
           && d.flags == (if op.write then F_NEXT else F_NEXT + F_WRITE)
        then Some(Did(op.write, op.sector, d.addr.buf)) else None
      else None
    else None
  }

  // ---------------------------------------------------------------- invariant

  predicate Shapes(s: St) {
    |s.free| == |s.desc| == |s.ops| == |s.info| == |s.status| == |s.availRing| == |s.usedRing| == |s.part| == NUM
  }

  /** Every descriptor is free or part of one chain. */
  predicate Parts(s: St)
    requires Shapes(s)
  {
    && (forall i | 0 <= i < NUM :: s.free[i] <==> s.part[i] == NUM)
    && (forall i | 0 <= i < NUM && s.part[i] != NUM ::
          s.part[i] in s.live && (i == s.part[i] || i == s.live[s.part[i]].mid || i == s.live[s.part[i]].last))
  }

  /** The chains of the requests in flight are made of three descriptors each,
      and with the free descriptors they are all there are. */
  predicate Chains(s: St)
    requires Shapes(s)
  {
    Parts(s) && forall h | h in s.live :: ChainOk(s, h, s.live[h])
  }

  predicate ChainOk(s: St, h: nat, r: Req)
    requires Shapes(s)
  {
    && h < NUM && r.mid < NUM && r.last < NUM && h != r.mid && h != r.last && r.mid != r.last
    && s.part[h] == s.part[r.mid] == s.part[r.last] == h
    && s.desc[h] == Desc(Header(h), 16, F_NEXT, r.mid)
    && s.desc[r.mid] == Desc(Data(r.buf), Bytes.BSIZE, if r.write then F_NEXT else F_NEXT + F_WRITE, r.last)
    && s.desc[r.last] == Desc(Status(h), 1, F_WRITE, 0)
    && s.ops[h] == Op(r.write, r.sector) && s.info[h] == Some(r.buf)
  }

  /** The rings hold what the other side has yet to look at. */
  predicate Rings(s: St)
    requires Shapes(s)
  {
    && s.taken <= |s.avail| <= s.taken + NUM && s.seen <= |s.used| <= s.seen + NUM && |s.done| == |s.used|
    && s.availIdx == |s.avail| % UINT16 && s.devIdx == s.taken % UINT16
    && s.usedIdx == |s.used| % UINT16 && s.seenIdx == s.seen % UINT16
    && (forall k | s.taken <= k < |s.avail| :: s.availRing[k % NUM] == s.avail[k])
    && (forall k | s.seen <= k < |s.used| :: s.usedRing[k % NUM] == s.used[k])
  }

  /** Each request is where its stage says, and only there. */
  predicate Stages(s: St) {
    && |s.done| == |s.used|
    && (forall k | s.taken <= k < |s.avail| :: s.avail[k] in s.live && s.live[s.avail[k]].stage == Queued(k))
    && (forall k | s.seen <= k < |s.used| :: s.used[k] in s.live && s.live[s.used[k]].stage == Finished(k))
    && (forall h | h in s.live :: StageOk(s, h, s.live[h]))
    && (forall h, g | h in s.live && g in s.live && h != g :: s.live[h].buf != s.live[g].buf)
  }

  predicate StageOk(s: St, h: nat, r: Req) {
    && (r.buf in s.busy <==> !r.stage.Seen?) && r.since <= |s.done|
    && match r.stage
       case Queued(k) => s.taken <= k < |s.avail| && s.avail[k] == h
       case Taken => true
       case Finished(k) => s.seen <= k < |s.used| && s.used[k] == h && Carried(s, r, k)
       case Seen(k) => k < s.seen && k < |s.used| && Carried(s, r, k)
  }

  /** The `k`-th command the device carried out is this request. */
  predicate Carried(s: St, r: Req, k: nat) {
    r.since <= k < |s.done| && s.done[k] == Did(r.write, r.sector, r.buf)
  }

  predicate Inv(s: St) {
    Shapes(s) && Chains(s) && Rings(s) && Stages(s)
  }

  // ---------------------------------------------------------------- steps

  datatype Action =
    | Submit(buf: nat, write: bool, sector: nat, i0: nat, i1: nat, i2: nat)
    | AllocFails
    | DeviceTake
    | DeviceFinish(h: nat, status: nat)
    | IntrOne
    | Retire(h: nat)

  /** `virtio_disk_rw` up to its wait, with three free descriptors. The caller
      holds the buffer's lock, so no request for it is in flight. */
  function Submitted(s: St, a: Action): St
    requires Shapes(s) && a.Submit? && a.i0 < NUM && a.i1 < NUM && a.i2 < NUM
  {
    var h := a.i0;
    s.(free := s.free[h := false][a.i1 := false][a.i2 := false],
       desc := s.desc[h := Desc(Header(h), 16, F_NEXT, a.i1)]
                     [a.i1 := Desc(Data(a.buf), Bytes.BSIZE, if a.write then F_NEXT else F_NEXT + F_WRITE, a.i2)]
                     [a.i2 := Desc(Status(h), 1, F_WRITE, 0)],
       ops := s.ops[h := Op(a.write, a.sector)], info := s.info[h := Some(a.buf)], status := s.status[h := 0xff],
       busy := s.busy + {a.buf},
       availRing := s.availRing[s.availIdx % NUM := h], availIdx := (s.availIdx + 1) % UINT16,
       live := s.live[h := Req(a.i1, a.i2, a.buf, a.write, a.sector, |s.done|, Queued(|s.avail|))],
       part := s.part[h := h][a.i1 := h][a.i2 := h],
       avail := s.avail + [h])
  }

  predicate CanSubmit(s: St, a: Action)
    requires Shapes(s) && a.Submit?
  {
    && a.i0 < NUM && a.i1 < NUM && a.i2 < NUM && a.i0 != a.i1 && a.i0 != a.i2 && a.i1 != a.i2
    && s.free[a.i0] && s.free[a.i1] && s.free[a.i2]
    && a.buf !in s.busy && forall h | h in s.live :: s.live[h].buf != a.buf
  }

  function At(s: St, h: nat, g: Stage): St
    requires h in s.live
  {
    s.(live := s.live[h := s.live[h].(stage := g)])
  }

  /** The device takes the next entry of the avail ring. */
  predicate DeviceTakes(s: St, t: St)
    requires Shapes(s)
  {
    && s.devIdx != s.availIdx
    && var h := s.availRing[s.devIdx % NUM];
    && h in s.live
    && t == At(s, h, Taken).(devIdx := (s.devIdx + 1) % UINT16, taken := s.taken + 1)
  }

  /** The device carries out a command it has taken, as the descriptors say, and
      reports it. */
  predicate DeviceFinishes(s: St, h: nat, status: nat, t: St)
    requires Shapes(s)
  {
    && h in s.live && h < NUM && s.live[h].stage == Taken && Command(s, h).Some?
    && t == At(s, h, Finished(|s.used|)).(
         status := s.status[h := status], usedRing := s.usedRing[s.usedIdx % NUM := h], usedIdx := (s.usedIdx + 1) % UINT16,
         used := s.used + [h], done := s.done + [Command(s, h).value])
  }

  /** One round of the loop of `virtio_disk_intr`; a status other than 0 is a panic. */
  predicate IntrSees(s: St, t: St)
    requires Shapes(s)
  {
    && s.seenIdx != s.usedIdx
    && var id := s.usedRing[s.seenIdx % NUM];
    && id in s.live && id < NUM && s.status[id] == 0 && s.info[id].Some?
    && t == At(s, id, Seen(s.seen)).(busy := s.busy - {s.info[id].value}, seenIdx := (s.seenIdx + 1) % UINT16, seen := s.seen + 1)
  }

  function Cleared(): Desc { Desc(Null, 0, 0, 0) }

  /** The end of `virtio_disk_rw`: the chain is freed. */
  function Retired(s: St, h: nat): St
    requires Shapes(s) && h in s.live && h < NUM && s.live[h].mid < NUM && s.live[h].last < NUM
  {
    var r := s.live[h];
    s.(info := s.info[h := None],
       free := s.free[h := true][r.mid := true][r.last := true],
       desc := s.desc[h := Cleared()][r.mid := Cleared()][r.last := Cleared()],
       part := s.part[h := NUM][r.mid := NUM][r.last := NUM],
       live := s.live - {h})
  }

  predicate Next(s: St, a: Action, t: St) {
    && Shapes(s)
    && match a
       case Submit(_, _, _, _, _, _) => CanSubmit(s, a) && t == Submitted(s, a)
       case AllocFails =>
         && Shapes(t) && t == s.(desc := t.desc)
         && (forall i, j, k | 0 <= i < j < k < NUM :: !s.free[i] || !s.free[j] || !s.free[k])
         && (forall i | 0 <= i < NUM && !s.free[i] :: t.desc[i] == s.desc[i])
       case DeviceTake => DeviceTakes(s, t)
       case DeviceFinish(h, status) => DeviceFinishes(s, h, status, t)
       case IntrOne => IntrSees(s, t)
       case Retire(h) =>
         && h in s.live && h < NUM && s.live[h].mid < NUM && s.live[h].last < NUM && s.live[h].buf !in s.busy
         && t == Retired(s, h)
  }

  // ---------------------------------------------------------------- counting

  lemma HeadOf(s: St, h: nat)
    requires Shapes(s) && Chains(s) && h in s.live
    ensures h < NUM && !s.free[h] && ChainOk(s, h, s.live[h])
  {
  }

  /** Fewer than NUM entries wait in the avail ring while a descriptor is free. */
  lemma AvailHasRoom(s: St, i: nat)
    requires Inv(s) && i < NUM && s.free[i]
    ensures |s.avail| < s.taken + NUM
  {
    hide Rings, Chains, StageOk, ChainOk, Numbers;
    RingBounds(s);
    forall k | s.taken <= k < |s.avail| ensures s.avail[k] in Numbers(0, NUM) - {i} {
      HeadOf(s, s.avail[k]);
    }
    AllDifferent(s.avail, s.taken, Numbers(0, NUM) - {i});
  }

  /** ... and in the used ring while the device still holds a request. */
  lemma UsedHasRoom(s: St, h: nat)
    requires Inv(s) && h in s.live && s.live[h].stage == Taken
    ensures |s.used| < s.seen + NUM && h < NUM
  {
    hide Rings, Chains, StageOk, ChainOk, Numbers;
    RingBounds(s);
    HeadOf(s, h);
    forall k | s.seen <= k < |s.used| ensures s.used[k] in Numbers(0, NUM) - {h} {
      HeadOf(s, s.used[k]);
    }
    AllDifferent(s.used, s.seen, Numbers(0, NUM) - {h});
  }

  lemma RingBounds(s: St)
    requires Shapes(s) && Rings(s)
    ensures s.taken <= |s.avail| && s.seen <= |s.used|
  {
  }

  /** The two counters of a ring are equal just when nothing waits in it, though both wrap. */
  lemma Waiting(total: nat, seen: nat)
    requires seen <= total <= seen + NUM
    ensures seen % UINT16 == total % UINT16 <==> seen == total
  {
    var d := total - seen;
    WrappedRing.Wrap(seen, d, UINT16);
  }

  // ---------------------------------------------------------------- every step keeps the invariant

  /** Only stages changed: the chains are the same. */
  lemma SameChains(s: St, t: St)
    requires Shapes(s) && Chains(s) && Shapes(t)
    requires t.free == s.free && t.desc == s.desc && t.ops == s.ops && t.info == s.info && t.part == s.part
    requires t.live.Keys == s.live.Keys && forall h | h in s.live :: t.live[h] == s.live[h].(stage := t.live[h].stage)
    ensures Chains(t)
  {
    forall h | h in t.live ensures ChainOk(t, h, t.live[h]) {
      assert ChainOk(s, h, s.live[h]);
    }
  }

  lemma SubmitKeeps(s: St, a: Action)
    requires Inv(s) && a.Submit? && CanSubmit(s, a)
    ensures Inv(Submitted(s, a))
  {
    hide Chains, Rings, Stages;
    AvailHasRoom(s, a.i0);
    SubmitChains(s, a);
    SubmitRings(s, a);
    SubmitStages(s, a);
  }

  lemma SubmitChains(s: St, a: Action)
    requires Shapes(s) && Chains(s) && a.Submit? && CanSubmit(s, a)
    ensures Shapes(Submitted(s, a)) && Chains(Submitted(s, a))
  {
    var t := Submitted(s, a);
    FreeNotLive(s);
    SubmitParts(s, a);
    forall h | h in t.live ensures ChainOk(t, h, t.live[h]) {
      if h == a.i0 {
        SubmitNew(s, a);
      } else {
        HeadOf(s, h);
        SubmitOther(s, a, h);
      }
    }
  }

  lemma SubmitParts(s: St, a: Action)
    requires Shapes(s) && Parts(s) && a.Submit? && CanSubmit(s, a) && a.i0 !in s.live
    ensures Shapes(Submitted(s, a)) && Parts(Submitted(s, a))
  {
  }

  lemma SubmitNew(s: St, a: Action)
    requires Shapes(s) && a.Submit? && CanSubmit(s, a)
    ensures var t := Submitted(s, a); Shapes(t) && ChainOk(t, a.i0, t.live[a.i0])
  {
  }

  lemma SubmitOther(s: St, a: Action, h: nat)
    requires Shapes(s) && Parts(s) && a.Submit? && CanSubmit(s, a) && h in s.live && h != a.i0 && ChainOk(s, h, s.live[h])
    ensures var t := Submitted(s, a); Shapes(t) && ChainOk(t, h, s.live[h])
  {
  }

  lemma SubmitRings(s: St, a: Action)
    requires Shapes(s) && Rings(s) && a.Submit? && CanSubmit(s, a) && |s.avail| < s.taken + NUM
    ensures Shapes(Submitted(s, a)) && Rings(Submitted(s, a))
  {
    var t := Submitted(s, a);
    var n := |s.avail|;
    WrappedRing.Wrap(n, 1, UINT16);
    WrappedRing.SlotOf(n, NUM, UINT16 / NUM);
    forall k | t.taken <= k < |t.avail| ensures t.availRing[k % NUM] == t.avail[k] {
      if k < n {
        WrappedRing.SlotsDiffer(k, n, NUM);
      }
    }
  }

  lemma SubmitStages(s: St, a: Action)
    requires Shapes(s) && Chains(s) && Rings(s) && Stages(s) && a.Submit? && CanSubmit(s, a)
    ensures Stages(Submitted(s, a))
  {
    RingBounds(s);
    FreeNotLive(s);
    hide Chains, Rings;
    var t := Submitted(s, a);
    forall g | g in t.live ensures StageOk(t, g, t.live[g]) {
      SubmitStage(s, a, g);
    }
  }

  lemma SubmitStage(s: St, a: Action, g: nat)
    requires Shapes(s) && Stages(s) && a.Submit? && CanSubmit(s, a) && s.taken <= |s.avail| && a.i0 !in s.live
    requires g in Submitted(s, a).live
    ensures var t := Submitted(s, a); StageOk(t, g, t.live[g])
  {
    if g != a.i0 {
      assert StageOk(s, g, s.live[g]);
    }
  }

  lemma FreeNotLive(s: St)
    requires Shapes(s) && Chains(s)
    ensures forall h | h in s.live :: h < NUM && !s.free[h]
  {
    forall h | h in s.live ensures h < NUM && !s.free[h] {
      HeadOf(s, h);
    }
  }

  lemma TakeKeeps(s: St, t: St)
    requires Inv(s) && DeviceTakes(s, t)
    ensures Inv(t)
  {
    NextQueued(s);
    TakeRings(s, t);
    hide Rings;
    SameChains(s, t);
    hide Chains;
    TakeStages(s, t);
  }

  lemma TakeRings(s: St, t: St)
    requires Shapes(s) && Rings(s) && DeviceTakes(s, t) && s.taken < |s.avail|
    ensures Rings(t)
  {
    WrappedRing.Wrap(s.taken, 1, UINT16);
  }

  lemma TakeStages(s: St, t: St)
    requires Shapes(s) && Stages(s) && DeviceTakes(s, t) && s.taken < |s.avail| && s.availRing[s.devIdx % NUM] == s.avail[s.taken]
    ensures Stages(t)
  {
    forall g | g in t.live ensures StageOk(t, g, t.live[g]) {
      assert StageOk(s, g, s.live[g]);
    }
  }

  /** The entry the device reads is the oldest request it has not taken. */
  lemma NextQueued(s: St)
    requires Inv(s) && s.devIdx != s.availIdx
    ensures s.taken < |s.avail| && s.availRing[s.devIdx % NUM] == s.avail[s.taken]
    ensures s.avail[s.taken] in s.live && s.live[s.avail[s.taken]].stage == Queued(s.taken)
  {
    Waiting(|s.avail|, s.taken);
    WrappedRing.SlotOf(s.taken, NUM, UINT16 / NUM);
  }

  /** The device reads the command that was submitted. */
  lemma CommandOf(s: St, h: nat)
    requires Inv(s) && h in s.live
    ensures Command(s, h) == Some(Did(s.live[h].write, s.live[h].sector, s.live[h].buf))
  {
    assert ChainOk(s, h, s.live[h]);
  }

  lemma FinishKeeps(s: St, h: nat, status: nat, t: St)
    requires Inv(s) && DeviceFinishes(s, h, status, t)
    ensures Inv(t)
  {
    CommandOf(s, h);
    UsedHasRoom(s, h);
    FinishRings(s, h, status, t);
    hide Rings, Command;
    SameChains(s, t);
    hide Chains;
    FinishStages(s, h, status, t);
  }

  lemma FinishStages(s: St, h: nat, status: nat, t: St)
    requires Shapes(s) && Stages(s) && DeviceFinishes(s, h, status, t) && s.seen <= |s.used|
    requires Command(s, h) == Some(Did(s.live[h].write, s.live[h].sector, s.live[h].buf))
    requires s.live[h].since <= |s.done|
    ensures Stages(t)
  {
    hide Command;
    assert StageOk(s, h, s.live[h]);
    forall g | g in t.live ensures StageOk(t, g, t.live[g]) {
      assert StageOk(s, g, s.live[g]);
    }
  }

  lemma FinishRings(s: St, h: nat, status: nat, t: St)
    requires Shapes(s) && Rings(s) && DeviceFinishes(s, h, status, t) && |s.used| < s.seen + NUM
    ensures Shapes(t) && Rings(t)
  {
    var n := |s.used|;
    WrappedRing.Wrap(n, 1, UINT16);
    WrappedRing.SlotOf(n, NUM, UINT16 / NUM);
    forall k | t.seen <= k < |t.used| ensures t.usedRing[k % NUM] == t.used[k] {
      if k < n {
        WrappedRing.SlotsDiffer(k, n, NUM);
      }
    }
  }

  /** The id the handler reads is a request in flight, with its buffer. */
  lemma NextUsed(s: St)
    requires Inv(s) && s.seenIdx != s.usedIdx
    ensures s.seen < |s.used|
    ensures var id := s.usedRing[s.seenIdx % NUM];
            && id == s.used[s.seen] && id < NUM && id in s.live && s.live[id].stage == Finished(s.seen)
            && s.info[id] == Some(s.live[id].buf)
  {
    Waiting(|s.used|, s.seen);
    WrappedRing.SlotOf(s.seen, NUM, UINT16 / NUM);
    assert ChainOk(s, s.used[s.seen], s.live[s.used[s.seen]]);
  }

  lemma IntrKeeps(s: St, t: St)
    requires Inv(s) && IntrSees(s, t)
    ensures Inv(t)
  {
    NextUsed(s);
    IntrRings(s, t);
    hide Rings;
    SameChains(s, t);
    hide Chains;
    IntrStages(s, t);
  }

  lemma IntrRings(s: St, t: St)
    requires Shapes(s) && Rings(s) && IntrSees(s, t) && s.seen < |s.used|
    ensures Rings(t)
  {
    WrappedRing.Wrap(s.seen, 1, UINT16);
  }

  lemma IntrStages(s: St, t: St)
    requires Shapes(s) && Stages(s) && IntrSees(s, t) && s.seen < |s.used| && s.usedRing[s.seenIdx % NUM] == s.used[s.seen]
    requires s.info[s.used[s.seen]] == Some(s.live[s.used[s.seen]].buf)
    ensures Stages(t)
  {
    var id := s.used[s.seen];
    assert StageOk(s, id, s.live[id]);
    forall g | g in t.live ensures StageOk(t, g, t.live[g]) {
      assert StageOk(s, g, s.live[g]);
    }
  }

  lemma RetireKeeps(s: St, h: nat)
    requires Inv(s) && h in s.live && h < NUM && s.live[h].mid < NUM && s.live[h].last < NUM && s.live[h].buf !in s.busy
    ensures Inv(Retired(s, h))
  {
    HeadOf(s, h);
    RetireChains(s, h);
    hide Chains, ChainOk;
    RetireStages(s, h);
  }

  lemma RetireStages(s: St, h: nat)
    requires Shapes(s) && Stages(s) && h in s.live && h < NUM && s.live[h].mid < NUM && s.live[h].last < NUM && s.live[h].buf !in s.busy
    ensures Stages(Retired(s, h))
  {
    var t := Retired(s, h);
    assert StageOk(s, h, s.live[h]);
    forall g | g in t.live ensures StageOk(t, g, t.live[g]) {
      assert StageOk(s, g, s.live[g]);
    }
  }

  lemma RetireChains(s: St, h: nat)
    requires Shapes(s) && Chains(s) && h in s.live && h < NUM && s.live[h].mid < NUM && s.live[h].last < NUM
    ensures Shapes(Retired(s, h)) && Chains(Retired(s, h))
  {
    var t := Retired(s, h);
    HeadOf(s, h);
    RetireParts(s, h);
    hide Parts;
    forall g | g in t.live ensures ChainOk(t, g, t.live[g]) {
      RetireOther(s, h, g);
    }
  }

  lemma RetireParts(s: St, h: nat)
    requires Shapes(s) && Parts(s) && h in s.live && ChainOk(s, h, s.live[h])
    ensures Shapes(Retired(s, h)) && Parts(Retired(s, h))
  {
    var t := Retired(s, h);
    forall i | 0 <= i < NUM && t.part[i] != NUM ensures t.part[i] == s.part[i] != h {
    }
  }

  lemma RetireOther(s: St, h: nat, g: nat)
    requires Shapes(s) && h in s.live && ChainOk(s, h, s.live[h]) && g in s.live && g != h && ChainOk(s, g, s.live[g])
    ensures Shapes(Retired(s, h)) && ChainOk(Retired(s, h), g, s.live[g])
  {
  }

  lemma AllocFailsKeeps(s: St, t: St)
    requires Inv(s) && Next(s, AllocFails, t)
    ensures Inv(t)
  {
    RingsIgnore(s, t);
    hide Rings;
    FreeNotLive(s);
    forall g | g in t.live ensures ChainOk(t, g, t.live[g]) {
      HeadOf(s, g);
      OtherDesc(s, t, g);
    }
    hide Chains, ChainOk;
    StagesIgnore(s, t);
  }

  lemma StagesIgnore(s: St, t: St)
    requires Stages(s) && t == s.(desc := t.desc)
    ensures Stages(t)
  {
    forall g | g in t.live ensures StageOk(t, g, t.live[g]) {
      assert StageOk(s, g, s.live[g]);
    }
  }

  lemma OtherDesc(s: St, t: St, g: nat)
    requires Shapes(s) && Shapes(t) && Parts(s) && g in s.live && ChainOk(s, g, s.live[g]) && t == s.(desc := t.desc)
    requires forall i | 0 <= i < NUM && !s.free[i] :: t.desc[i] == s.desc[i]
    ensures ChainOk(t, g, t.live[g])
  {
  }

  lemma RingsIgnore(s: St, t: St)
    requires Shapes(s) && Rings(s) && Shapes(t) && t == s.(desc := t.desc)
    ensures Rings(t)
  {
  }

  lemma StepKeepsInv(s: St, a: Action, t: St)
    requires Inv(s) && Next(s, a, t)
    ensures Inv(t)
  {
    hide Inv, Chains, Rings, Stages, Submitted, Retired, DeviceTakes, DeviceFinishes, IntrSees;
    match a
    case Submit(_, _, _, _, _, _) => SubmitKeeps(s, a);
    case AllocFails => AllocFailsKeeps(s, t);
    case DeviceTake => TakeKeeps(s, t);
    case DeviceFinish(h, status) => FinishKeeps(s, h, status, t);
    case IntrOne => IntrKeeps(s, t);
    case Retire(h) => RetireKeeps(s, h);
  }

  // ---------------------------------------------------------------- runs

  datatype Run = Start(last: St) | Then(before: Run, a: Action, last: St)

  /** After `virtio_disk_init`: all descriptors free, both rings empty. */
  predicate Init(s: St) {
    && Shapes(s)
    && (forall i | 0 <= i < NUM :: s.free[i] && s.part[i] == NUM)
    && s.availIdx == s.usedIdx == s.seenIdx == s.devIdx == 0 && s.busy == {}
    && s.live == map[] && s.avail == [] && s.taken == 0 && s.used == [] && s.seen == 0 && s.done == []
  }

  predicate IsRun(r: Run) {
    match r
    case Start(s) => Init(s)
    case Then(q, a, s) => IsRun(q) && Next(q.last, a, s)
  }

  lemma {:induction false} RunInv(r: Run)
    requires IsRun(r)
    ensures Inv(r.last)
  {
    match r
    case Start(s) =>
    case Then(q, a, s) =>
      RunInv(q);
      StepKeepsInv(q.last, a, s);
  }

  predicate InChain(r: Req, h: nat, i: nat) { i == h || i == r.mid || i == r.last }

  /** In every run each descriptor is either free or in the chain of exactly one request in flight. */
  lemma Partitioned(r: Run, i: nat)
    requires IsRun(r) && i < NUM
    ensures Shapes(r.last)
    ensures r.last.free[i] <==> forall h | h in r.last.live :: !InChain(r.last.live[h], h, i)
    ensures forall h, g | h in r.last.live && g in r.last.live && InChain(r.last.live[h], h, i) && InChain(r.last.live[g], g, i) :: h == g
  {
    RunInv(r);
    var s := r.last;
    forall h | h in s.live && InChain(s.live[h], h, i) ensures s.part[i] == h && !s.free[i] {
      HeadOf(s, h);
    }
    if !s.free[i] {
      assert InChain(s.live[s.part[i]], s.part[i], i);
    }
  }

  /** In every run a new request finds its slot of the avail ring already taken by the device. */
  lemma NoOverwrite(r: Run, a: Action, k: nat)
    requires IsRun(r) && Shapes(r.last) && a.Submit? && CanSubmit(r.last, a)
    requires r.last.taken <= k < |r.last.avail|
    ensures r.last.availIdx % NUM != k % NUM && Submitted(r.last, a).availRing[k % NUM] == r.last.avail[k]
  {
    RunInv(r);
    AvailHasRoom(r.last, a.i0);
    WrappedRing.SlotOf(|r.last.avail|, NUM, UINT16 / NUM);
    WrappedRing.SlotsDiffer(k, |r.last.avail|, NUM);
  }

  /** In every run the handler finds only requests in flight, each with its buffer. */
  lemma HandlerSafe(r: Run)
    requires IsRun(r) && r.last.seenIdx != r.last.usedIdx
    ensures Shapes(r.last)
    ensures var id := r.last.usedRing[r.last.seenIdx % NUM];
            id < NUM && id in r.last.live && r.last.info[id] == Some(r.last.live[id].buf)
  {
    RunInv(r);
    NextUsed(r.last);
  }

  /** In every run `virtio_disk_rw` goes on only after the device has carried
      out the very command it submitted, since it submitted it. */
  lemma OwnRequestDone(r: Run, h: nat)
    requires IsRun(r) && h in r.last.live && r.last.live[h].buf !in r.last.busy
    ensures exists k :: r.last.live[h].since <= k < |r.last.done|
              && r.last.done[k] == Did(r.last.live[h].write, r.last.live[h].sector, r.last.live[h].buf)
  {
    RunInv(r);
    var q := r.last.live[h];
    assert StageOk(r.last, h, q);
    assert Carried(r.last, q, q.stage.at);
  }
}
