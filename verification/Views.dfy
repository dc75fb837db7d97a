/** What processes see of the file system through the buffer cache
    (kernel/bio.c), in every run of `CrashConsistency` in which only data blocks
    are released with changes that nobody logged: the last state, and on top of it
    the contents of the stray buffers. */
module Views {
  import opened Bytes
  import opened CrashConsistency
  import opened FileSystem
  import opened Footprints
  import opened Inodes
  import opened Log
  import opened OnDisk
  import opened Options
  import opened Space
  import opened Strays
  import S = Storage

  /** A block that state `s` uses for data or not at all. */
  predicate DataBlock(pl: Places, s: Snap, b: nat) {
    pl.nmeta <= b && (b in s.owner ==> s.owner[b].slot != INDIRECT)
  }

  predicate AbandonsData(pl: Places, w: World, i: nat) {
    && |w.hist| > 0 && i < |w.s.bufs| && w.s.bufs[i].id.Some?
    && (w.s.bufs[i].id.value !in w.s.lh ==> DataBlock(pl, w.Last(), w.s.bufs[i].id.value))
  }

  /** What failing writes release without logging it are data blocks. */
  predicate OnlyData(pl: Places, r: Run) {
    match r
    case Boot(_) => true
    case Then(q, a, _) => OnlyData(pl, q) && (a.Do? && a.a.Abandon? ==> AbandonsData(pl, q.last, a.a.i))
  }

  /** A transaction under way may still change block `b` itself. */
  predicate Claimed(w: World, b: nat) {
    b in HeldAt(w.txs, b).blocks
  }

  predicate StrayFits(pl: Places, w: World, b: nat)
    requires |w.hist| > 0
  {
    pl.nmeta <= b && (DataBlock(pl, w.Last(), b) || Claimed(w, b))
  }

  /** No stray buffer has a block that the state uses as an indirect block, unless
      the transaction that made it one has yet to log it. */
  predicate StrayOk(pl: Places, w: World) {
    && |w.hist| > 0
    && forall i | 0 <= i < |w.s.bufs| && w.s.bufs[i].stray :: w.s.bufs[i].id.Some? && StrayFits(pl, w, w.s.bufs[i].id.value)
  }

  // ---------------------------------------------------------------- every step keeps it

  /** Only an abandoned change makes a buffer stray. */
  predicate StrayAfter(s: S.State, a: S.Action, t: S.State) {
    && |t.bufs| == |s.bufs|
    && forall i | 0 <= i < |t.bufs| && t.bufs[i].stray ::
         && t.bufs[i].id == s.bufs[i].id
         && (s.bufs[i].stray || (a.Abandon? && a.i == i && s.bufs[i].id.Some? && s.bufs[i].id.value !in s.lh))
  }

  lemma StrayShape(l: Layout, s: S.State, a: S.Action, t: S.State)
    requires S.Next(l, s, a, t)
    ensures StrayAfter(s, a, t) && (a.Crash? ==> forall i | 0 <= i < |t.bufs| :: !t.bufs[i].stray)
  {
    hide S.CacheStep, S.DataStep, S.CommitStep, S.RecoveryStep, Loggable, StrayAfter;
    if S.CacheStep(s, a, t) {
      StrayCache(s, a, t);
    } else if S.DataStep(l, s, a, t) {
      StrayData(l, s, a, t);
    } else {
      StrayCommit(l, s, a, t);
    }
  }

  lemma StrayCache(s: S.State, a: S.Action, t: S.State)
    requires S.CacheStep(s, a, t)
    ensures StrayAfter(s, a, t) && !a.Crash?
  {
  }

  lemma StrayData(l: Layout, s: S.State, a: S.Action, t: S.State)
    requires S.DataStep(l, s, a, t)
    ensures StrayAfter(s, a, t) && !a.Crash?
  {
  }

  lemma StrayCommit(l: Layout, s: S.State, a: S.Action, t: S.State)
    requires l.Fits(s.disk) && Loggable(l, s.disk, s.lh) && (S.CommitStep(l, s, a, t) || S.RecoveryStep(l, s, a, t))
    ensures StrayAfter(s, a, t) && (a.Crash? ==> forall i | 0 <= i < |t.bufs| :: !t.bufs[i].stray)
  {
    hide S.Names, HeaderBlocks;
  }

  lemma DoStrays(pl: Places, w: World, a: S.Action, v: World)
    requires StrayOk(pl, w) && Follows(pl, w, a, v) && StrayAfter(w.s, a, v.s) && (a.Abandon? ==> AbandonsData(pl, w, a.i))
    requires a.Crash? ==> forall i | 0 <= i < |v.s.bufs| :: !v.s.bufs[i].stray
    ensures StrayOk(pl, v)
  {
    hide ChangesOnly, HeldAt, DataBlock;
    forall i | 0 <= i < |v.s.bufs| && v.s.bufs[i].stray ensures v.s.bufs[i].id.Some? && StrayFits(pl, v, v.s.bufs[i].id.value) {
      assert !a.Crash? && v.hist == w.hist && v.txs == w.txs;
      if !w.s.bufs[i].stray {
        assert AbandonsData(pl, w, i);
        DataFits(pl, w, w.s.bufs[i].id.value);
      }
    }
  }

  lemma DataFits(pl: Places, w: World, b: nat)
    requires |w.hist| > 0 && DataBlock(pl, w.Last(), b)
    ensures StrayFits(pl, w, b)
  {
  }

  /** An announcement can turn a data block into an indirect block, but then its
      transaction holds it. */
  lemma AnnouncedStrays(l: Layout, pl: Places, w: World, p: nat, x: Tx, f: Foot, v: World)
    requires StrayOk(pl, w) && |v.hist| > 0 && v.s == w.s && v.txs == w.txs[p := x]
    requires p in w.txs ==> w.txs[p].logged <= x.logged && w.txs[p].foot.Within(x.foot)
    requires v.Last().logged <= x.logged && f.Within(x.foot)
    requires Step(pl, w.Last(), v.Last()) && Confined(w.Last(), v.Last(), f)
    ensures StrayOk(pl, v)
  {
    hide HeldAt, Sound, Own;
    forall i | 0 <= i < |v.s.bufs| && v.s.bufs[i].stray ensures v.s.bufs[i].id.Some? && StrayFits(pl, v, v.s.bufs[i].id.value) {
      var b := v.s.bufs[i].id.value;
      assert StrayFits(pl, w, b);
      HeldGrows(w.txs, p, x, v.Last().logged, f, b);
      if !DataBlock(pl, v.Last(), b) && DataBlock(pl, w.Last(), b) {
        assert b in v.Last().logged;
        assert !SameOwner(w.Last().owner, v.Last().owner, b);
        assert b in f.blocks;
      }
    }
  }

  lemma FinishStrays(l: Layout, pl: Places, w: World, p: nat, v: World)
    requires StrayOk(pl, w) && S.Inv(l, w.s, w.sp) && OpsOk(w) && Next(l, pl, w, Finish(p), v)
    ensures StrayOk(pl, v)
  {
    hide S.Inv, BlockOkBut, HeldAt, DataBlock, S.Next, S.SpecNext, Follows, Announces, Merge;
    LogDistinct(l, w.s, w.sp);
    forall i | 0 <= i < |v.s.bufs| && v.s.bufs[i].stray ensures v.s.bufs[i].id.Some? && StrayFits(pl, v, v.s.bufs[i].id.value) {
      var b := v.s.bufs[i].id.value;
      assert StrayFits(pl, w, b);
      StrayUnlogged(l, w.s, w.sp, i);
      HeldLess(w.txs, p, b);
    }
  }

  /** A stray block is not in the log. */
  lemma StrayUnlogged(l: Layout, s: S.State, sp: S.Spec, i: nat)
    requires S.Inv(l, s, sp) && i < |s.bufs| && s.bufs[i].stray && s.phase == S.Idle
    ensures s.bufs[i].id.Some? && s.bufs[i].id.value < |sp.current| && !l.InLog(s.bufs[i].id.value) && s.bufs[i].id.value !in s.lh
  {
    hide S.PinInv, S.ScratchInv;
    assert S.StrayAside(l, s, s.bufs[i]);
  }

  lemma {:induction false} RunStrays(l: Layout, pl: Places, r: Run)
    requires IsRun(l, pl, r) && OnlyData(pl, r)
    ensures StrayOk(pl, r.last)
  {
    match r
    case Boot(w) =>
    case Then(q, a, w) =>
      hide IsRun, Inv, StrayOk, S.Next, S.SpecNext, Follows, AbandonsData;
      assert IsRun(l, pl, q) && Next(l, pl, q.last, a, w) by {
        RunBefore(l, pl, q, a, w);
      }
      RunStrays(l, pl, q);
      RunInv(l, pl, q);
      StepStrays(l, pl, q.last, a, w);
  }

  lemma StepStrays(l: Layout, pl: Places, w: World, a: Action, v: World)
    requires Inv(l, pl, w) && StrayOk(pl, w) && Next(l, pl, w, a, v) && (a.Do? && a.a.Abandon? ==> AbandonsData(pl, w, a.a.i))
    ensures StrayOk(pl, v)
  {
    hide StrayOk, AbandonsData, StrayAfter, S.Inv, S.Next, S.SpecNext, Follows, HistOk, DisksOk, RoomOk, Merge, Announces, BlockOkBut, HeldAt, Step, Confined;
    match a
    case Do(b) =>
      StrayShape(l, w.s, b, v.s);
      DoStrays(pl, w, b, v);
    case Start(p, from, to, f, g) =>
      AnnouncedStep(pl, w, from, to, f, g);
      AnnouncedStrays(l, pl, w, p, Tx(to.logged, f, |w.hist|), f, v);
    case More(p, from, to, f, g) =>
      AnnouncedStep(pl, w, from, to, f, g);
      AnnouncedStrays(l, pl, w, p, Further(w.txs[p], to, f), f, v);
    case Finish(p) =>
      FinishStrays(l, pl, w, p, v);
  }

  // ---------------------------------------------------------------- the view

  /** Buffer `i` holds changes to its block that nobody logged and that no
      transaction under way will overwrite. */
  predicate StrayAt(w: World, i: nat) {
    i < |w.s.bufs| && w.s.bufs[i].stray && w.s.bufs[i].id.Some? && !Claimed(w, w.s.bufs[i].id.value)
  }

  function StrayBlocks(w: World): set<nat> {
    set i | 0 <= i < |w.s.bufs| && StrayAt(w, i) :: w.s.bufs[i].id.value
  }

  /** The first of these buffers that has block `b`. */
  function StrayFrom(w: World, b: nat, i: nat): nat
    requires i <= |w.s.bufs|
    decreases |w.s.bufs| - i
  {
    if i == |w.s.bufs| || (StrayAt(w, i) && w.s.bufs[i].id.value == b) then i else StrayFrom(w, b, i + 1)
  }

  lemma {:induction false} StrayFound(w: World, b: nat, i: nat)
    requires i <= |w.s.bufs|
    ensures var k := StrayFrom(w, b, i);
            && i <= k <= |w.s.bufs| && (k < |w.s.bufs| ==> StrayAt(w, k) && w.s.bufs[k].id == Some(b))
            && forall j | i <= j < k && StrayAt(w, j) :: w.s.bufs[j].id != Some(b)
    decreases |w.s.bufs| - i
  {
    if i < |w.s.bufs| && !(StrayAt(w, i) && w.s.bufs[i].id.value == b) {
      StrayFound(w, b, i + 1);
    }
  }

  /** What is seen in block `b`. */
  function SeenBlock(w: World, b: nat): Block
    requires |w.hist| > 0 && b < |w.Last().img.blocks|
  {
    var k := StrayFrom(w, b, 0);
    if k < |w.s.bufs| then w.s.bufs[k].data else w.Last().img.blocks[b]
  }

  function View(w: World): Snap
    requires |w.hist| > 0
  {
    var s := w.Last();
    s.(img := s.img.(blocks := seq(|s.img.blocks|, b requires 0 <= b < |s.img.blocks| => SeenBlock(w, b))))
  }

  lemma InStrayBlocks(w: World, b: nat)
    ensures b in StrayBlocks(w) <==> StrayFrom(w, b, 0) < |w.s.bufs|
  {
    StrayFound(w, b, 0);
  }

  /** In every such run what processes see is the last state with the contents of
      the stray buffers on top. */
  lemma ProcessesSee(l: Layout, pl: Places, r: Run)
    requires IsRun(l, pl, r) && OnlyData(pl, r)
    ensures |r.last.hist| > 0 && Sound(pl, r.last.Last()) && Sound(pl, View(r.last))
    ensures Seen(r.last.Last(), View(r.last), StrayBlocks(r.last))
  {
    hide IsRun, S.Inv, DisksOk, RoomOk, Sound, StrayFrom, StrayBlocks, Step, HeldAt;
    var w := r.last;
    RunInv(l, pl, r);
    RunStrays(l, pl, r);
    HistSound(pl, w, |w.hist| - 1);
    forall b | 0 <= b < |w.Last().img.blocks| && b !in StrayBlocks(w) ensures SeenBlock(w, b) == w.Last().img.blocks[b] {
      InStrayBlocks(w, b);
      StrayFound(w, b, 0);
    }
    forall b | b in StrayBlocks(w) && b in w.Last().owner ensures w.Last().owner[b].slot != INDIRECT {
      InStrayBlocks(w, b);
      StrayFound(w, b, 0);
    }
    SeenSound(pl, View(w), w.Last(), StrayBlocks(w));
  }

  lemma OneBuffer(l: Layout, s: S.State, sp: S.Spec, i: nat, j: nat)
    requires S.Inv(l, s, sp) && i < |s.bufs| && j < |s.bufs| && s.bufs[i].id.Some? && s.bufs[i].id == s.bufs[j].id
    ensures i == j
  {
    hide S.PinInv, S.ScratchInv, S.StrayInv, S.DataInv, S.PhaseInv, S.BufInv;
  }

  lemma SettledData(l: Layout, s: S.State, sp: S.Spec, i: nat)
    requires S.Inv(l, s, sp) && i < |s.bufs| && s.bufs[i].Settled() && !s.Recovering() && !l.InLog(s.bufs[i].id.value)
    ensures s.bufs[i].id.value < |sp.current| && s.bufs[i].data == sp.current[s.bufs[i].id.value]
  {
    hide S.PinInv, S.ScratchInv, S.StrayInv, S.CacheInv, S.PhaseInv;
  }

  /** A process that has a block locked and has not changed it reads what the view
      says, in data, free map and inodes, but for the parts that transactions under
      way may still change. */
  lemma ReadsView(l: Layout, pl: Places, r: Run, p: nat, i: nat, b: nat)
    requires IsRun(l, pl, r) && OnlyData(pl, r) && !r.last.s.Recovering()
    requires r.last.s.Holds(p, i, b) && !r.last.s.bufs[i].scratch && !l.InLog(b)
    requires |r.last.hist| > 0 && pl.Apart(l, |r.last.sp.current|, |r.last.Last().img.inodes|)
    ensures BlockOkBut(pl, View(r.last), b, r.last.s.bufs[i].data, HeldAt(r.last.txs, b))
  {
    hide IsRun, S.Inv, RoomOk, Sound, StrayFrom, Step, HeldAt, BlockOkBut, HistOk, View;
    var w := r.last;
    RunInv(l, pl, r);
    RunStrays(l, pl, r);
    HistSound(pl, w, |w.hist| - 1);
    BitsLength(pl, w.Last());
    if w.s.bufs[i].stray {
      StraySeen(l, pl, w, i, b);
    } else {
      SettledData(l, w.s, w.sp, i);
      ViewSame(pl, w, b, w.sp.current[b], HeldAt(w.txs, b));
      if StrayFrom(w, b, 0) < |w.s.bufs| {
        StrayFound(w, b, 0);
        OneBuffer(l, w.s, w.sp, i, StrayFrom(w, b, 0));
      }
    }
  }

  lemma BitsLength(pl: Places, s: Snap)
    requires Sound(pl, s)
    ensures |s.bits| == |s.img.blocks|
  {
  }

  /** Where there is no stray buffer the view is the last state. */
  lemma ViewSame(pl: Places, w: World, b: nat, blk: Block, held: Foot)
    requires |w.hist| > 0 && BlockOkBut(pl, w.Last(), b, blk, held)
    ensures StrayFrom(w, b, 0) >= |w.s.bufs| ==> BlockOkBut(pl, View(w), b, blk, held)
  {
    hide BitOf, InodeOf, StrayFrom;
  }

  lemma StraySeen(l: Layout, pl: Places, w: World, i: nat, b: nat)
    requires S.Inv(l, w.s, w.sp) && StrayOk(pl, w) && i < |w.s.bufs| && w.s.bufs[i].stray && w.s.bufs[i].id == Some(b)
    requires pl.Apart(l, |w.sp.current|, |w.Last().img.inodes|) && |w.sp.current| == |w.Last().img.blocks| == |w.Last().bits|
    ensures BlockOkBut(pl, View(w), b, w.s.bufs[i].data, HeldAt(w.txs, b))
  {
    hide S.Inv, BitOf, InodeOf, HeldAt, StrayFrom;
    StrayFound(w, b, 0);
    if !Claimed(w, b) {
      assert StrayAt(w, i);
      OneBuffer(l, w.s, w.sp, i, StrayFrom(w, b, 0));
    }
  }

  // ---------------------------------------------------------------- eviction

  /** When a stray block's buffer is recycled it is stray no more, and what is seen
      of it is the last state again; nothing else changes in what is seen. */
  lemma Evicted(l: Layout, pl: Places, q: Run, p: nat, i: nat, b: nat, w: World)
    requires IsRun(l, pl, Run.Then(q, Do(S.GetMiss(p, i, b)), w))
    ensures i < |q.last.s.bufs| && |q.last.hist| > 0 && w.hist == q.last.hist
    ensures var gone := if StrayAt(q.last, i) then {q.last.s.bufs[i].id.value} else {};
            && StrayBlocks(w) == StrayBlocks(q.last) - gone
            && forall c | 0 <= c < |w.Last().img.blocks| ::
                 SeenBlock(w, c) == if c in gone then w.Last().img.blocks[c] else SeenBlock(q.last, c)
  {
    hide IsRun, S.Inv, HistOk, DisksOk, OpsOk, RoomOk, StrayFrom, HeldAt, S.SpecNext, S.Next, StrayBlocks;
    RunBefore(l, pl, q, Do(S.GetMiss(p, i, b)), w);
    RunInv(l, pl, q);
    HistLast(pl, q.last);
    MissShape(l, q.last.s, p, i, b, w.s);
    var gone := if StrayAt(q.last, i) then {q.last.s.bufs[i].id.value} else {};
    forall c: nat ensures c in StrayBlocks(w) <==> c in StrayBlocks(q.last) && c !in gone {
      EvictedOne(l, q.last, w, i, c);
    }
    forall c | 0 <= c < |w.Last().img.blocks|
      ensures SeenBlock(w, c) == if c in gone then w.Last().img.blocks[c] else SeenBlock(q.last, c)
    {
      EvictedOne(l, q.last, w, i, c);
    }
  }

  lemma HistLast(pl: Places, w: World)
    requires HistOk(pl, w)
    ensures |w.hist| > 0
  {
  }

  predicate Recycled(s: S.State, i: nat, t: S.State) {
    && i < |s.bufs| == |t.bufs| && !t.bufs[i].stray
    && forall j | 0 <= j < |s.bufs| && j != i :: t.bufs[j] == s.bufs[j]
  }

  lemma MissShape(l: Layout, s: S.State, p: nat, i: nat, b: nat, t: S.State)
    requires S.Next(l, s, S.GetMiss(p, i, b), t)
    ensures Recycled(s, i, t)
  {
    hide S.Names, Loggable;
  }

  lemma EvictedOne(l: Layout, w: World, v: World, i: nat, c: nat)
    requires S.Inv(l, w.s, w.sp) && Recycled(w.s, i, v.s) && v.txs == w.txs && v.hist == w.hist && |w.hist| > 0
    ensures c in StrayBlocks(v) <==> c in StrayBlocks(w) && !(StrayAt(w, i) && w.s.bufs[i].id == Some(c))
    ensures c < |w.Last().img.blocks| ==>
              SeenBlock(v, c) == if StrayAt(w, i) && w.s.bufs[i].id == Some(c) then w.Last().img.blocks[c] else SeenBlock(w, c)
  {
    hide S.Inv, HeldAt, StrayFrom, StrayBlocks;
    InStrayBlocks(w, c);
    InStrayBlocks(v, c);
    StrayFound(w, c, 0);
    StrayFound(v, c, 0);
    var j, k := StrayFrom(w, c, 0), StrayFrom(v, c, 0);
    assert forall x: nat | x < |w.s.bufs| && x != i :: StrayAt(v, x) == StrayAt(w, x);
    if j < |w.s.bufs| && k < |v.s.bufs| {
      OneBuffer(l, w.s, w.sp, j, k);
    }
    if j < |w.s.bufs| && StrayAt(w, i) && w.s.bufs[i].id == Some(c) {
      OneBuffer(l, w.s, w.sp, i, j);
    }
  }

  // ---------------------------------------------------------------- starting from the view

  /** A transaction of `filewrite` worked out from what processes see can start in
      the run, whatever earlier failing writes left in the cache; processes then see
      what the transaction made of it. */
  lemma WriteStarts(l: Layout, pl: Places, r: Run, p: nat, u: Snap,
                    i: nat, off: nat, n: nat, src: seq<byte>, ret: int, leak: nat, caught: bool)
    returns (t: Snap, left: set<nat>, v: World)
    requires IsRun(l, pl, r) && OnlyData(pl, r) && p in r.last.todo && |r.last.hist| > 0
    requires Sound(pl, u) && Transacted(View(r.last), u, i, off, n, src, ret, leak) && Grew(View(r.last), u, i)
    requires JournaledBut(pl.bmapstart, pl.inodestart, View(r.last), u, LeakedBy(u.img, i, off, ret, leak))
    ensures Next(l, pl, r.last, Start(p, |r.last.hist| - 1, t, FootOf(r.last.Last(), t, i), NoFoot), v)
    ensures v.hist == r.last.hist + [t] && Seen(t, u, left) && left <= StrayBlocks(r.last) + LeakedBy(u.img, i, off, ret, leak)
  {
    hide IsRun, OnlyData, View, Seen, Sound, JournaledBut, Grew, Transacted, StrayBlocks, LeakedBy, Confined, FootOf, Merge, S.Next, S.SpecNext, Follows, HeldAt, BlockOkBut, Step;
    ProcessesSee(l, pl, r);
    var s := r.last.Last();
    t, left := WriteIsStep(pl, s, View(r.last), StrayBlocks(r.last), u, i, off, n, src, ret, leak, caught);
    ConfinedNone(s);
    Merged(s, t, FootOf(s, t, i));
    v := Announced(r.last, p, Tx(t.logged, FootOf(s, t, i), |r.last.hist|), t, FootOf(s, t, i));
  }
}
