/** Whatever is under way can be brought to its end: from every state of every run
    of `CrashConsistency` the transactions under way can log what they announced,
    finish, and be committed (kernel/log.c, kernel/bio.c). */
module Settling {
  import opened Bytes
  import opened CommitProgress
  import opened CrashConsistency
  import opened FileSystem
  import opened Footprints
  import opened Inodes
  import opened Log
  import opened OnDisk
  import opened Options
  import opened Space
  import S = Storage
  import Admission

  // ---------------------------------------------------------------- one machine on top of the other

  /** The run of cache, log and disk under a run of transactions. */
  function Under(r: Run): S.Run {
    match r
    case Boot(w) => S.Boot(w.s, w.sp)
    case Then(q, a, w) => if a.Do? then S.Then(Under(q), a.a, w.s, w.sp) else Under(q)
  }

  lemma {:induction false} UnderIsRun(l: Layout, pl: Places, r: Run)
    requires IsRun(l, pl, r)
    ensures S.IsRun(l, Under(r)) && Under(r).last == r.last.s && Under(r).spec == r.last.sp
  {
    match r
    case Boot(w) =>
    case Then(q, a, w) =>
      hide S.Next, S.SpecNext, Follows, BlockOkBut, HeldAt, Step, Confined, Merge;
      UnderIsRun(l, pl, q);
  }

  /** Steps that begin nothing new and lose nothing. */
  predicate Calm(a: Action) {
    match a
    case Do(b) => !b.Crash? && !b.BeginOp?
    case Start(_, _, _, _, _) => false
    case More(_, _, _, _, _) => false
    case Finish(_) => true
  }

  /** `q` is `r` and then such steps. */
  predicate Onward(r: Run, q: Run) {
    q == r || (q.Then? && Calm(q.a) && Onward(r, q.before))
  }

  lemma OnwardSelf(r: Run)
    ensures Onward(r, r)
  {
  }

  lemma {:induction false} OnwardTrans(a: Run, b: Run, c: Run)
    requires Onward(a, b) && Onward(b, c)
    ensures Onward(a, c)
  {
    if c != b {
      OnwardTrans(a, b, c.before);
    }
  }

  lemma Advance(l: Layout, pl: Places, r: Run, a: Action, w: World) returns (q: Run)
    requires IsRun(l, pl, r) && Calm(a) && Next(l, pl, r.last, a, w)
    ensures IsRun(l, pl, q) && Onward(r, q) && q == Then(r, a, w)
  {
    hide Next;
    OnwardSelf(r);
    q := Then(r, a, w);
  }

  lemma LeavesCopying(l: Layout, s: S.State, a: S.Action, t: S.State)
    requires S.Next(l, s, a, t) && Plain(a) && s.phase.Copying?
    ensures t.phase.Copying? || a.WriteHead?
  {
    hide S.Names, Loggable;
  }

  lemma HistThere(l: Layout, pl: Places, r: Run)
    requires IsRun(l, pl, r)
    ensures |r.last.hist| > 0
  {
    hide IsRun, S.Inv, OpsOk, DisksOk, RoomOk;
    RunInv(l, pl, r);
  }

  /** The last world of `r` with another machine state below it. */
  predicate Above(w: World, v: World) {
    v == w.(s := v.s, sp := v.sp, dur := v.dur) && (v.dur == w.dur || v.dur == |w.hist| - 1)
  }

  /** What the machine below can do by plain steps it can do here; when a commit
      gets past its header, everything so far is durable. */
  lemma {:induction false} Lift(l: Layout, pl: Places, r: Run, x: S.Run) returns (q: Run)
    requires IsRun(l, pl, r) && S.IsRun(l, x) && Extends(Under(r), x)
    ensures IsRun(l, pl, q) && Onward(r, q) && Above(r.last, q.last) && Under(q) == x && q.last.s == x.last && q.last.sp == x.spec
    ensures r.last.s.phase.Copying? ==> x.last.phase.Copying? || q.last.dur == |r.last.hist| - 1
    decreases x
  {
    hide S.Next, S.SpecNext, IsRun, Next;
    UnderIsRun(l, pl, r);
    OnwardSelf(r);
    if x == Under(r) {
      q := r;
    } else {
      var m := Lift(l, pl, r, x.before);
      HistThere(l, pl, m);
      var w := LiftStep(l, pl, m.last, x.a, x.last, x.spec);
      q := Advance(l, pl, m, Do(x.a), w);
      OnwardTrans(r, m, q);
      if x.before.last.phase.Copying? {
        LeavesCopying(l, x.before.last, x.a, x.last);
      }
    }
  }

  lemma LiftStep(l: Layout, pl: Places, w: World, a: S.Action, t: S.State, sp: S.Spec) returns (v: World)
    requires Plain(a) && S.Next(l, w.s, a, t) && sp == S.SpecNext(w.sp, w.s, a) && |w.hist| > 0
    ensures Next(l, pl, w, Do(a), v) && v == w.(s := t, sp := sp, dur := if a.WriteHead? then |w.hist| - 1 else w.dur)
  {
    hide S.Next, S.SpecNext, CrashConsistency.Logs, BlockOkBut, HeldAt, Step, Confined, Merge;
    v := w.(s := t, sp := sp, dur := if a.WriteHead? then |w.hist| - 1 else w.dur);
  }

  // ---------------------------------------------------------------- the block to write

  /** State `s`, except that what block `b` says in `was` stays, outside `f`. */
  function Mixed(pl: Places, s: Snap, b: nat, was: Block, f: Foot): Snap
    requires b < |s.img.blocks|
  {
    Snap(seq(|s.bits|, c requires 0 <= c < |s.bits| =>
           if c / BPB + pl.bmapstart == b && c !in f.blocks then BitOf(was, c % BPB) else s.bits[c]),
         Image(if b in f.blocks then s.img.blocks else s.img.blocks[b := was],
               seq(|s.img.inodes|, i requires 0 <= i < |s.img.inodes| =>
                 if i / IPB + pl.inodestart == b && i !in f.inums then InodeOf(was, i % IPB) else s.img.inodes[i])),
         s.logged, s.owner)
  }

  lemma MixedSmall(pl: Places, s: Snap, b: nat, was: Block, f: Foot)
    requires AllSmall(s.img.inodes) && b < |s.img.blocks|
    ensures AllSmall(Mixed(pl, s, b, was, f).img.inodes)
  {
    var m := Mixed(pl, s, b, was, f);
    forall i | 0 <= i < |s.img.inodes| ensures Small(m.img.inodes[i]) {
      assert Small(s.img.inodes[i]);
      SmallRead(was, i % IPB);
    }
  }

  lemma SmallRead(blk: Block, k: nat)
    requires k < IPB
    ensures Small(InodeOf(blk, k))
  {
    hide Word;
    forall a | 0 <= a <= NDIRECT ensures InodeOf(blk, k).addrs[a] < UINT_MAX1 {
      assert InodeOf(blk, k).addrs[a] == Word(blk, DWORDS * k + 3 + a);
    }
  }

  /** A block with the transaction's parts as they should be and the others as
      they were. */
  lemma MixedBlock(l: Layout, pl: Places, s: Snap, b: nat, was: Block, f: Foot, g: Foot) returns (now: Block)
    requires Sound(pl, s) && pl.Apart(l, |s.img.blocks|, |s.img.inodes|) && b < |s.img.blocks|
    requires BlockOkBut(pl, s, b, was, g.Plus(f))
    ensures ChangesOnly(pl, s, b, was, now, f) && BlockOkBut(pl, s, b, now, g)
  {
    hide BitOf, InodeOf, Mixed, Sound, BlockOk;
    now := MixedEncoded(l, pl, s, b, was, f);
    MixedRead(pl, s, b, was, f, now);
  }

  lemma MixedEncoded(l: Layout, pl: Places, s: Snap, b: nat, was: Block, f: Foot) returns (now: Block)
    requires Sound(pl, s) && pl.Apart(l, |s.img.blocks|, |s.img.inodes|) && b < |s.img.blocks|
    ensures BlockOk(pl, Mixed(pl, s, b, was, f), b, now)
  {
    hide BitOf, InodeOf, Solid, SlotsOwned, OwnersHold, BlockOk, AllSmall, MapBlock, InodeBlockOf;
    OwnedSmall(pl.nmeta, s);
    MixedSmall(pl, s, b, was, f);
    EncodedBlock(l, pl, Mixed(pl, s, b, was, f), b);
    now := Encoded(pl, Mixed(pl, s, b, was, f))[b];
  }

  lemma MixedRead(pl: Places, s: Snap, b: nat, was: Block, f: Foot, now: Block)
    requires b < |s.img.blocks| && BlockOk(pl, Mixed(pl, s, b, was, f), b, now)
    ensures ChangesOnly(pl, s, b, was, now, f)
    ensures pl.nmeta <= b && b in f.blocks ==> now == s.img.blocks[b]
    ensures forall c | 0 <= c < |s.bits| && c / BPB + pl.bmapstart == b && c in f.blocks :: BitOf(now, c % BPB) == s.bits[c]
    ensures forall i | 0 <= i < |s.img.inodes| && i / IPB + pl.inodestart == b && i in f.inums :: InodeOf(now, i % IPB) == s.img.inodes[i]
  {
    hide BitOf, InodeOf;
  }

  // ---------------------------------------------------------------- logging what was announced

  function LogTo(s: S.State, i: nat, b: nat): S.State
    requires i < |s.bufs|
  {
    if b in s.lh then s.(bufs := s.bufs[i := s.bufs[i].(scratch := false)])
    else s.(lh := s.lh + [b], bufs := s.bufs[i := s.bufs[i].(refcnt := s.bufs[i].refcnt + 1, scratch := false, stray := false)])
  }

  lemma LogNext(l: Layout, s: S.State, p: nat, i: nat, b: nat)
    requires l.Fits(s.disk) && Loggable(l, s.disk, s.lh) && s.phase == S.Idle && p in s.ops && s.Holds(p, i, b)
    requires !l.InLog(b) && b < UINT_MAX1 && |s.lh| < Admission.Capacity(l.size)
    ensures S.Next(l, s, S.LogWrite(p, i), LogTo(s, i, b))
  {
    assert S.DataStep(l, s, S.LogWrite(p, i), LogTo(s, i, b));
  }

  /** A transaction under way has an operation, and its blocks are right but for
      what is held. */
  lemma UnderWay(l: Layout, pl: Places, r: Run, p: nat)
    requires IsRun(l, pl, r) && p in r.last.txs
    ensures p in r.last.s.ops
    ensures |r.last.hist| > 0 && |r.last.sp.current| == |r.last.Last().img.blocks| && Sound(pl, r.last.Last())
    ensures forall b | 0 <= b < |r.last.sp.current| && !l.InLog(b) ::
              BlockOkBut(pl, r.last.Last(), b, r.last.sp.current[b], HeldAt(r.last.txs, b))
  {
    hide IsRun, S.Inv, RoomOk, BlockOkBut, HeldAt, Sound, Step;
    RunInv(l, pl, r);
    HistSound(pl, r.last, |r.last.hist| - 1);
  }

  lemma LogStep(l: Layout, pl: Places, r: Run, p: nat, i: nat, b: nat) returns (q: Run)
    requires IsRun(l, pl, r) && r.last.s.phase == S.Idle && r.last.s.Holds(p, i, b) && |r.last.s.lh| < Admission.Capacity(l.size)
    requires !l.InLog(b) && b < UINT_MAX1 && CrashConsistency.Logs(pl, r.last, p, i)
    ensures IsRun(l, pl, q) && Onward(r, q)
    ensures q.last == r.last.(s := LogTo(r.last.s, i, b), sp := r.last.sp.(current := r.last.sp.current[b := r.last.s.bufs[i].data]))
  {
    hide IsRun, Onward, S.Next, BlockOkBut, HeldAt, Step, Confined, Merge, ChangesOnly, Loggable;
    UnderIsRun(l, pl, r);
    LogOk(l, Under(r));
    UnderWay(l, pl, r, p);
    LogNext(l, r.last.s, p, i, b);
    var v := r.last.(s := LogTo(r.last.s, i, b), sp := r.last.sp.(current := r.last.sp.current[b := r.last.s.bufs[i].data]));
    assert Next(l, pl, r.last, Do(S.LogWrite(p, i)), v);
    q := Advance(l, pl, r, Do(S.LogWrite(p, i)), v);
  }

  /** An operation reads a block and changes it. */
  lemma Change(l: Layout, x: S.Run, p: nat, b: nat, now: Block) returns (y: S.Run, i: nat)
    requires S.IsRun(l, x) && x.last.phase == S.Idle && Unused(x.last) && p in x.last.ops
    requires !l.InLog(b) && b < |x.last.disk| && |x.last.bufs| > |x.last.lh|
    ensures S.IsRun(l, y) && Extends(x, y) && y.spec == x.spec && OnlyBufs(x.last, y.last)
    ensures y.last.Holds(p, i, b) && y.last.bufs[i].data == now
    ensures forall j | 0 <= j < |y.last.bufs| && j != i :: y.last.bufs[j].users == {}
  {
    hide S.IsRun, Extends;
    assert Room(x.last, {});
    var m;
    m, i := Bread(l, x, p, b, {});
    var t := m.last.(bufs := m.last.bufs[i := m.last.bufs[i].(data := now, scratch := true)]);
    assert S.DataStep(l, m.last, S.Modify(p, i, now), t);
    y := Cached1(l, m, S.Modify(p, i, now), t);
    ExtendsTrans(x, m, y);
  }

  /** What stays the same while transactions log their blocks. */
  predicate Kept(w: World, v: World) {
    && Above(w, v) && v.s.phase == w.s.phase && v.s.ops == w.s.ops && |v.s.bufs| == |w.s.bufs| && |v.s.disk| == |w.s.disk|
    && |v.sp.current| == |w.sp.current|
  }

  predicate AtRest(w: World) {
    w.s.phase == S.Idle && Unused(w.s)
  }

  /** A transaction puts its part of a block it announced into the log. */
  lemma WriteOut(l: Layout, pl: Places, r: Run, p: nat, b: nat) returns (q: Run, now: Block)
    requires IsRun(l, pl, r) && AtRest(r.last) && p in r.last.txs && b in r.last.txs[p].logged && |r.last.hist| > 0
    requires b < |r.last.sp.current| && !l.InLog(b) && |r.last.s.lh| < Admission.Capacity(l.size) && |r.last.s.bufs| > |r.last.s.lh|
    requires pl.Apart(l, |r.last.sp.current|, |r.last.Last().img.inodes|)
    ensures IsRun(l, pl, q) && Onward(r, q) && Kept(r.last, q.last) && AtRest(q.last)
    ensures q.last.s.lh == if b in r.last.s.lh then r.last.s.lh else r.last.s.lh + [b]
    ensures q.last.sp.current == r.last.sp.current[b := now]
    ensures BlockOkBut(pl, r.last.Last(), b, now, HeldAt(r.last.txs - {p}, b))
  {
    hide IsRun, S.IsRun, Onward, Extends, BlockOkBut, HeldAt, ChangesOnly, Sound, Loggable;
    UnderIsRun(l, pl, r);
    LogOk(l, Under(r));
    UnderWay(l, pl, r, p);
    InRange(pl, r.last.Last());
    now := RightBlock(l, pl, r.last.Last(), r.last.txs, p, b, r.last.sp.current[b]);
    var x, i := Change(l, Under(r), p, b, now);
    var m := Lift(l, pl, r, x);
    var n := LogStep(l, pl, m, p, i, b);
    UnderIsRun(l, pl, n);
    var y := Release(l, Under(n), i);
    q := Lift(l, pl, n, y);
    OnwardTrans(r, m, n);
    OnwardTrans(r, n, q);
  }

  lemma InRange(pl: Places, s: Snap)
    requires Sound(pl, s)
    ensures |s.img.blocks| <= UINT_MAX1
  {
  }

  lemma RightBlock(l: Layout, pl: Places, s: Snap, txs: map<nat, Tx>, p: nat, b: nat, was: Block) returns (now: Block)
    requires Sound(pl, s) && pl.Apart(l, |s.img.blocks|, |s.img.inodes|) && b < |s.img.blocks|
    requires p in txs && b in txs[p].logged && BlockOkBut(pl, s, b, was, HeldAt(txs, b))
    ensures ChangesOnly(pl, s, b, was, now, txs[p].foot) && BlockOkBut(pl, s, b, now, HeldAt(txs - {p}, b))
  {
    hide BlockOkBut, ChangesOnly, Sound, HeldAt;
    var less := txs - {p};
    assert txs == less[p := txs[p]];
    HeldMore(less, p, txs[p], b);
    now := MixedBlock(l, pl, s, b, was, txs[p].foot, HeldAt(less, b));
  }

  /** The log can take what is owed and one block more: with a full log even a
      block that is in it already cannot be logged. */
  predicate Roomy(l: Layout, w: World) {
    |w.s.lh| + |Owed(w.txs, w.s.lh)| < Admission.Capacity(l.size) < |w.s.bufs|
  }

  predicate Laid(l: Layout, pl: Places, w: World) {
    |w.hist| > 0 && pl.Apart(l, |w.sp.current|, |w.Last().img.inodes|)
  }

  predicate Loggables(l: Layout, w: World, bs: set<nat>) {
    forall b | b in bs :: b < |w.sp.current| && !l.InLog(b)
  }

  predicate Right(pl: Places, w: World, p: nat, b: nat)
    requires |w.hist| > 0
  {
    b < |w.sp.current| && b in w.s.lh && BlockOkBut(pl, w.Last(), b, w.sp.current[b], HeldAt(w.txs - {p}, b))
  }

  lemma {:induction false} WriteAll(l: Layout, pl: Places, r: Run, p: nat, bs: set<nat>) returns (q: Run)
    requires IsRun(l, pl, r) && AtRest(r.last) && Roomy(l, r.last) && Laid(l, pl, r.last)
    requires p in r.last.txs && bs <= r.last.txs[p].logged && Loggables(l, r.last, bs)
    ensures IsRun(l, pl, q) && Onward(r, q) && Kept(r.last, q.last) && AtRest(q.last) && Roomy(l, q.last)
    ensures forall b | b in bs :: Right(pl, q.last, p, b)
    ensures forall b | b in r.last.s.lh :: b in q.last.s.lh
    decreases |bs|
  {
    hide IsRun, Onward, BlockOkBut, HeldAt, Unused, Owed;
    if bs == {} {
      OnwardSelf(r);
      q := r;
    } else {
      var b :| b in bs;
      var m := WriteAll(l, pl, r, p, bs - {b});
      var now;
      q, now := WriteOut(l, pl, m, p, b);
      OnwardTrans(r, m, q);
      StillRoomy(l, m.last, q.last, p, b);
      forall c | c in bs ensures Right(pl, q.last, p, c) {
        assert c != b ==> Right(pl, m.last, p, c);
      }
    }
  }

  lemma StillRoomy(l: Layout, w: World, v: World, p: nat, b: nat)
    requires Roomy(l, w) && v.txs == w.txs && |v.s.bufs| == |w.s.bufs| && p in w.txs && b in w.txs[p].logged
    requires v.s.lh == if b in w.s.lh then w.s.lh else w.s.lh + [b]
    ensures Roomy(l, v)
  {
    hide Owed;
    if b !in w.s.lh {
      OwedLogged(w.txs, p, w.s.lh, b);
    }
  }

  // ---------------------------------------------------------------- finishing

  lemma LogHoldsNothing(l: Layout, pl: Places, s: Snap, b: nat, blk: Block, f: Foot)
    requires pl.Apart(l, |s.img.blocks|, |s.img.inodes|) && l.InLog(b)
    ensures BlockOkBut(pl, s, b, blk, f)
  {
    hide BitOf, InodeOf;
    assert b < pl.inodestart;
  }

  predicate Ends(w: World, v: World) {
    && v == w.(s := v.s, sp := v.sp, dur := v.dur, todo := v.todo, txs := v.txs) && (v.dur == w.dur || v.dur == |w.hist| - 1)
    && |v.s.bufs| == |w.s.bufs| && |v.s.disk| == |w.s.disk| && |v.sp.current| == |w.sp.current|
  }

  /** Every block that was in the log or announced is in the log. */
  predicate AllLogged(l: Layout, w: World, lh: seq<nat>) {
    && (forall b | b in w.s.lh :: b in lh)
    && (forall p, b | p in w.txs && b in w.txs[p].logged && b < |w.sp.current| && !l.InLog(b) :: b in lh)
  }

  lemma FinishTx(l: Layout, pl: Places, r: Run, p: nat) returns (q: Run)
    requires IsRun(l, pl, r) && AtRest(r.last) && Roomy(l, r.last) && Laid(l, pl, r.last) && p in r.last.txs
    ensures IsRun(l, pl, q) && Onward(r, q) && Ends(r.last, q.last) && AtRest(q.last) && Roomy(l, q.last)
    ensures q.last.txs == r.last.txs - {p} && (forall b | b in r.last.s.lh :: b in q.last.s.lh)
    ensures forall b | b in r.last.txs[p].logged && b < |r.last.sp.current| && !l.InLog(b) :: b in q.last.s.lh
  {
    hide IsRun, Onward, BlockOkBut, HeldAt, Owed, Unused, S.Next, S.SpecNext, Follows, Step, Confined, Merge, Sound;
    var bs := set b | b in r.last.txs[p].logged && b < |r.last.sp.current| && !l.InLog(b);
    UnderWay(l, pl, r, p);
    var m := WriteAll(l, pl, r, p, bs);
    var w := m.last;
    forall b | b in w.txs[p].logged && b < |w.sp.current|
      ensures BlockOkBut(pl, w.Last(), b, w.sp.current[b], HeldAt(w.txs - {p}, b))
    {
      if l.InLog(b) {
        LogHoldsNothing(l, pl, w.Last(), b, w.sp.current[b], HeldAt(w.txs - {p}, b));
      } else {
        assert Right(pl, w, p, b);
      }
    }
    forall b | b in w.txs[p].logged && b < |w.sp.current| && !l.InLog(b) ensures b in w.s.lh {
      assert Right(pl, w, p, b);
    }
    var v := w.(txs := w.txs - {p});
    assert Next(l, pl, w, Finish(p), v);
    q := Advance(l, pl, m, Finish(p), v);
    OnwardTrans(r, m, q);
    OwedLess(w.txs, p, w.s.lh);
    forall b | b in r.last.txs[p].logged && b < |r.last.sp.current| && !l.InLog(b) ensures b in q.last.s.lh {
      assert Right(pl, w, p, b);
    }
  }

  lemma {:induction false} FinishAll(l: Layout, pl: Places, r: Run) returns (q: Run)
    requires IsRun(l, pl, r) && AtRest(r.last) && Roomy(l, r.last) && Laid(l, pl, r.last)
    ensures IsRun(l, pl, q) && Onward(r, q) && Ends(r.last, q.last) && AtRest(q.last) && Roomy(l, q.last)
    ensures q.last.txs == map[] && AllLogged(l, r.last, q.last.s.lh)
    decreases |r.last.txs|
  {
    hide IsRun, Onward, Owed, Unused;
    if r.last.txs == map[] {
      OnwardSelf(r);
      q := r;
    } else {
      var p :| p in r.last.txs;
      var m := FinishTx(l, pl, r, p);
      assert |m.last.txs| < |r.last.txs| by {
        assert r.last.txs.Keys == m.last.txs.Keys + {p};
      }
      q := FinishAll(l, pl, m);
      OnwardTrans(r, m, q);
      forall o, b | o in r.last.txs && b in r.last.txs[o].logged && b < |r.last.sp.current| && !l.InLog(b)
        ensures b in q.last.s.lh
      {
        if o != p {
          assert o in m.last.txs && m.last.txs[o] == r.last.txs[o];
        }
      }
    }
  }

  // ---------------------------------------------------------------- ending the operations

  lemma IdleStep(l: Layout, s: S.State, a: S.Action, t: S.State)
    requires S.Next(l, s, a, t) && (s.phase == S.Idle && s.ops == {} ==> s.lh == []) && (s.phase == S.Cleared ==> s.lh == [])
    ensures t.phase == S.Idle && t.ops == {} ==> t.lh == []
  {
    hide S.CacheStep, S.DataStep, S.CommitStep, S.RecoveryStep, Loggable;
    if S.CacheStep(s, a, t) {
      IdleCache(s, a, t);
    } else if S.DataStep(l, s, a, t) {
      IdleData(l, s, a, t);
    } else {
      IdleCommit(l, s, a, t);
    }
  }

  lemma IdleCache(s: S.State, a: S.Action, t: S.State)
    requires S.CacheStep(s, a, t)
    ensures t.phase == s.phase && t.ops == s.ops && t.lh == s.lh
  {
  }

  lemma IdleData(l: Layout, s: S.State, a: S.Action, t: S.State)
    requires S.DataStep(l, s, a, t) && (s.phase == S.Idle && s.ops == {} ==> s.lh == [])
    ensures t.phase == S.Idle && t.ops == {} ==> t.lh == []
  {
  }

  lemma IdleCommit(l: Layout, s: S.State, a: S.Action, t: S.State)
    requires l.Fits(s.disk) && Loggable(l, s.disk, s.lh) && (S.CommitStep(l, s, a, t) || S.RecoveryStep(l, s, a, t))
    requires s.phase == S.Cleared ==> s.lh == []
    ensures t.phase == S.Idle && t.ops == {} ==> t.lh == []
  {
    hide S.Names;
  }

  /** Between operations the log is empty. */
  lemma {:induction false} IdleEmpty(l: Layout, x: S.Run)
    requires S.IsRun(l, x)
    ensures x.last.phase == S.Idle && x.last.ops == {} ==> x.last.lh == []
  {
    hide S.Next, S.SpecNext;
    if x.Then? {
      IdleEmpty(l, x.before);
      PhaseOk(l, x.before);
      IdleStep(l, x.before.last, x.a, x.last);
    }
  }

  function EndTo(s: S.State, p: nat): S.State {
    s.(ops := s.ops - {p}, phase := if s.ops != {p} then S.Idle else if s.lh == [] then S.Cleared else S.Copying(0))
  }

  lemma EndNext(l: Layout, s: S.State, p: nat)
    requires l.Fits(s.disk) && Loggable(l, s.disk, s.lh) && s.phase == S.Idle && p in s.ops
    requires forall i | 0 <= i < |s.bufs| :: !s.bufs[i].scratch
    ensures S.Next(l, s, S.EndOp(p), EndTo(s, p))
  {
    assert S.DataStep(l, s, S.EndOp(p), EndTo(s, p));
  }

  lemma EndOne(l: Layout, pl: Places, r: Run, p: nat) returns (q: Run)
    requires IsRun(l, pl, r) && AtRest(r.last) && r.last.txs == map[] && p in r.last.s.ops
    ensures IsRun(l, pl, q) && Onward(r, q)
    ensures q.last == r.last.(s := EndTo(r.last.s, p), todo := r.last.todo - {p})
  {
    hide IsRun, Onward, S.Next, Loggable, BlockOkBut, HeldAt, Step, Confined, Merge, ChangesOnly;
    UnderIsRun(l, pl, r);
    LogOk(l, Under(r));
    forall i | 0 <= i < |r.last.s.bufs| ensures !r.last.s.bufs[i].scratch {
      NoScratchIdle(l, Under(r), i);
    }
    EndNext(l, r.last.s, p);
    var v := r.last.(s := EndTo(r.last.s, p), todo := r.last.todo - {p});
    assert Next(l, pl, r.last, Do(S.EndOp(p)), v);
    q := Advance(l, pl, r, Do(S.EndOp(p)), v);
  }

  lemma {:induction false} EndAll(l: Layout, pl: Places, r: Run) returns (q: Run)
    requires IsRun(l, pl, r) && AtRest(r.last) && r.last.txs == map[]
    ensures IsRun(l, pl, q) && Onward(r, q) && Ends(r.last, q.last) && q.last.txs == map[] && q.last.s.ops == {}
    ensures q.last.s.lh == r.last.s.lh
    ensures if r.last.s.lh == [] then q.last.s.phase == S.Idle || q.last.s.phase == S.Cleared else q.last.s.phase == S.Copying(0)
    decreases |r.last.s.ops|
  {
    hide IsRun, Onward, S.IsRun;
    if r.last.s.ops == {} {
      UnderIsRun(l, pl, r);
      IdleEmpty(l, Under(r));
      OnwardSelf(r);
      q := r;
    } else {
      var p :| p in r.last.s.ops;
      q := EndOne(l, pl, r, p);
      if r.last.s.ops != {p} {
        var m := q;
        assert |m.last.s.ops| < |r.last.s.ops| by {
          assert r.last.s.ops == m.last.s.ops + {p};
        }
        q := EndAll(l, pl, m);
        OnwardTrans(r, m, q);
      }
    }
  }

  // ---------------------------------------------------------------- letting go of the buffers

  /** Who is changing a buffer is a transaction under way, and if the block is in
      the log, it announced it. */
  predicate Answered(w: World) {
    forall i | 0 <= i < |w.s.bufs| && w.s.bufs[i].scratch :: AnsweredAt(w, i)
  }

  predicate AnsweredAt(w: World, i: nat)
    requires i < |w.s.bufs|
  {
    && w.s.bufs[i].holder.Some? && w.s.bufs[i].id.Some? && w.s.bufs[i].holder.value in w.txs
    && (w.s.bufs[i].id.value in w.s.lh ==> w.s.bufs[i].id.value in w.txs[w.s.bufs[i].holder.value].logged)
  }

  /** Buffer `i` apart, nothing changed. */
  predicate OneBuf(w: World, v: World, i: nat) {
    && Above(w, v) && OnlyBufs(w.s, v.s) && v.sp == w.sp
    && forall j | 0 <= j < |w.s.bufs| && j != i :: v.s.bufs[j] == w.s.bufs[j]
  }

  function DropTo(s: S.State, i: nat): S.State
    requires i < |s.bufs| && s.bufs[i].id.Some?
  {
    s.(bufs := s.bufs[i := s.bufs[i].(holder := None, scratch := false, stray := s.bufs[i].id.value !in s.lh)])
  }

  lemma DropNext(l: Layout, s: S.State, p: nat, i: nat)
    requires l.Fits(s.disk) && Loggable(l, s.disk, s.lh) && i < |s.bufs| && s.bufs[i].id.Some? && s.Holds(p, i, s.bufs[i].id.value)
    requires s.phase == S.Idle && s.bufs[i].scratch
    ensures S.Next(l, s, S.Abandon(p, i), DropTo(s, i))
  {
    assert S.DataStep(l, s, S.Abandon(p, i), DropTo(s, i));
  }

  /** A change to a block that is not in the log is abandoned. */
  lemma Drop(l: Layout, pl: Places, r: Run, i: nat) returns (q: Run)
    requires IsRun(l, pl, r) && r.last.s.phase == S.Idle && i < |r.last.s.bufs| && r.last.s.bufs[i].scratch
    requires AnsweredAt(r.last, i) && r.last.s.bufs[i].id.value !in r.last.s.lh
    ensures IsRun(l, pl, q) && Onward(r, q) && OneBuf(r.last, q.last, i) && !q.last.s.bufs[i].scratch
  {
    hide IsRun, Onward, S.Next, Loggable, BlockOkBut, HeldAt, Step, Confined, Merge, CrashConsistency.Logs;
    UnderIsRun(l, pl, r);
    LogOk(l, Under(r));
    BufOk(l, Under(r), i);
    var p := r.last.s.bufs[i].holder.value;
    DropNext(l, r.last.s, p, i);
    var v := r.last.(s := DropTo(r.last.s, i));
    assert Next(l, pl, r.last, Do(S.Abandon(p, i)), v);
    q := Advance(l, pl, r, Do(S.Abandon(p, i)), v);
  }

  /** A change to a block that is in the log is taken back. */
  lemma TakeBack(l: Layout, pl: Places, r: Run, i: nat) returns (q: Run)
    requires IsRun(l, pl, r) && r.last.s.phase == S.Idle && i < |r.last.s.bufs| && r.last.s.bufs[i].scratch
    requires AnsweredAt(r.last, i) && r.last.s.bufs[i].id.value in r.last.s.lh && |r.last.s.lh| < Admission.Capacity(l.size)
    ensures IsRun(l, pl, q) && Onward(r, q) && OneBuf(r.last, q.last, i) && !q.last.s.bufs[i].scratch
  {
    hide IsRun, S.IsRun, Onward, Extends, BlockOkBut, HeldAt;
    UnderIsRun(l, pl, r);
    LogOk(l, Under(r));
    BufOk(l, Under(r), i);
    var s := r.last.s;
    var p, b := s.bufs[i].holder.value, s.bufs[i].id.value;
    HistThere(l, pl, r);
    var t := s.(bufs := s.bufs[i := s.bufs[i].(data := r.last.sp.current[b], scratch := true)]);
    assert S.DataStep(l, s, S.Modify(p, i, r.last.sp.current[b]), t);
    var x := Cached1(l, Under(r), S.Modify(p, i, r.last.sp.current[b]), t);
    var m := Lift(l, pl, r, x);
    SameChanges(pl, m.last.Last(), b, r.last.sp.current[b], m.last.txs[p].foot);
    q := LogStep(l, pl, m, p, i, b);
    OnwardTrans(r, m, q);
    assert r.last.sp.current[b := r.last.sp.current[b]] == r.last.sp.current;
  }

  lemma SameChanges(pl: Places, s: Snap, b: nat, blk: Block, f: Foot)
    ensures ChangesOnly(pl, s, b, blk, blk, f)
  {
  }

  lemma {:induction false} Tidy(l: Layout, pl: Places, r: Run, n: nat) returns (q: Run)
    requires IsRun(l, pl, r) && r.last.s.phase == S.Idle && n <= |r.last.s.bufs|
    requires Answered(r.last) && |r.last.s.lh| < Admission.Capacity(l.size)
    ensures IsRun(l, pl, q) && Onward(r, q) && Above(r.last, q.last) && OnlyBufs(r.last.s, q.last.s) && q.last.sp == r.last.sp
    ensures forall j | 0 <= j < n :: !q.last.s.bufs[j].scratch
    ensures forall j | n <= j < |r.last.s.bufs| :: q.last.s.bufs[j] == r.last.s.bufs[j]
  {
    hide IsRun, Onward;
    if n == 0 {
      OnwardSelf(r);
      q := r;
    } else {
      var m := Tidy(l, pl, r, n - 1);
      q := m;
      if m.last.s.bufs[n - 1].scratch {
        assert AnsweredAt(r.last, n - 1);
        if m.last.s.bufs[n - 1].id.value in m.last.s.lh {
          q := TakeBack(l, pl, m, n - 1);
        } else {
          q := Drop(l, pl, m, n - 1);
        }
        OnwardTrans(r, m, q);
      }
    }
  }

  /** Everybody lets go of every buffer. */
  lemma Relax(l: Layout, pl: Places, r: Run) returns (q: Run)
    requires IsRun(l, pl, r) && r.last.s.phase == S.Idle && Answered(r.last) && |r.last.s.lh| < Admission.Capacity(l.size)
    ensures IsRun(l, pl, q) && Onward(r, q) && Above(r.last, q.last) && OnlyBufs(r.last.s, q.last.s) && q.last.sp == r.last.sp
    ensures AtRest(q.last)
  {
    hide IsRun, S.IsRun, Onward, Extends, Answered;
    var m := Tidy(l, pl, r, |r.last.s.bufs|);
    UnderIsRun(l, pl, m);
    var x := Drain(l, Under(m), |m.last.s.bufs|);
    q := Lift(l, pl, m, x);
    OnwardTrans(r, m, q);
  }

  // ---------------------------------------------------------------- all of it

  /** Nothing is under way and the durable disk holds the last state. */
  predicate AllDurable(l: Layout, pl: Places, w: World) {
    && w.s.phase == S.Idle && w.s.ops == {} && w.txs == map[] && w.s.lh == []
    && |w.hist| > 0 && Holds(l, pl, w.Last(), w.sp.durable)
  }

  lemma QuietDurable(l: Layout, pl: Places, r: Run)
    requires IsRun(l, pl, r) && r.last.s.phase == S.Idle && r.last.s.lh == [] && r.last.s.ops == {}
    ensures AllDurable(l, pl, r.last)
  {
    hide IsRun, S.IsRun, BlockOk, BlockOkBut, HeldAt, Step, Sound, RoomOk, S.Inv;
    RunInv(l, pl, r);
    assert r.last.txs == map[];
    AllThere(l, pl, r.last.Last(), r.last.sp.current);
    EmptyLogSame(l, r.last.s, r.last.sp);
    SameHolds(l, pl, r.last.Last(), r.last.sp.current, r.last.sp.durable);
  }

  lemma EmptyLogSame(l: Layout, s: S.State, sp: S.Spec)
    requires S.Inv(l, s, sp) && s.phase == S.Idle && s.lh == []
    ensures SameHome(l, sp.current, sp.durable)
  {
    hide S.CacheInv, S.PinInv, S.ScratchInv, S.StrayInv;
  }

  /** A commit or a recovery under way is brought to its end. */
  lemma Conclude(l: Layout, pl: Places, r: Run) returns (q: Run)
    requires IsRun(l, pl, r) && r.last.s.ops == {} && (r.last.s.phase == S.Idle ==> r.last.s.lh == [])
    requires |r.last.s.bufs| > Admission.Capacity(l.size) && |r.last.s.bufs| > 1
    ensures IsRun(l, pl, q) && Onward(r, q) && q.last.hist == r.last.hist && AllDurable(l, pl, q.last)
    ensures r.last.s.phase.Copying? ==> q.last.dur == |r.last.hist| - 1
  {
    hide IsRun, S.IsRun, Onward, Extends, AllDurable;
    UnderIsRun(l, pl, r);
    LogOk(l, Under(r));
    var x := Under(r);
    if Committing(r.last.s) {
      x := CommitEnds(l, Under(r));
    } else if r.last.s.Recovering() {
      x := RecoveryEnds(l, Under(r));
    } else {
      ExtendsSelf(x);
    }
    q := Lift(l, pl, r, x);
    QuietDurable(l, pl, q);
  }

  /** There is something to commit: in the log, or announced for it. */
  predicate Pending(l: Layout, w: World) {
    w.s.lh != [] || exists p, b :: p in w.txs && b in w.txs[p].logged && b < |w.sp.current| && !l.InLog(b)
  }

  lemma SomeLogged(l: Layout, w: World, v: World, lh: seq<nat>)
    requires AllLogged(l, v, lh) && v.txs == w.txs && v.s.lh == w.s.lh && |v.sp.current| == |w.sp.current|
    ensures Pending(l, w) ==> lh != []
  {
    if Pending(l, w) && w.s.lh != [] {
      assert w.s.lh[0] in lh;
    }
  }

  /** What it takes while operations are under way. */
  predicate CanSettle(l: Layout, pl: Places, w: World) {
    && Admission.Capacity(l.size) < |w.s.bufs| && |w.s.bufs| > 1
    && (w.s.phase == S.Idle ==> Roomy(l, w) && Laid(l, pl, w) && Answered(w))
  }

  /** From every state of every run, whoever is under way and wherever a commit or
      a recovery has got to: without a crash and without anything new, every
      transaction under way can be made to finish, and everything to be
      committed.  Every transaction that started is then durable. */
  lemma Settles(l: Layout, pl: Places, r: Run) returns (q: Run)
    requires IsRun(l, pl, r) && CanSettle(l, pl, r.last)
    ensures IsRun(l, pl, q) && Onward(r, q) && q.last.hist == r.last.hist && AllDurable(l, pl, q.last)
    ensures Pending(l, r.last) && r.last.s.phase == S.Idle ==> q.last.dur == |r.last.hist| - 1
  {
    hide IsRun, S.IsRun, Onward, Extends, AllDurable, Answered, Owed, AllLogged, Pending;
    UnderIsRun(l, pl, r);
    PhaseOk(l, Under(r));
    if r.last.s.phase == S.Idle {
      var a := Relax(l, pl, r);
      var b := FinishAll(l, pl, a);
      SomeLogged(l, r.last, a.last, b.last.s.lh);
      var c := EndAll(l, pl, b);
      q := Conclude(l, pl, c);
      OnwardTrans(r, a, b);
      OnwardTrans(r, b, c);
      OnwardTrans(r, c, q);
    } else {
      q := Conclude(l, pl, r);
    }
  }
}
