/** The file system on top of the buffer cache and the log: processes run
    operations, each of which makes at most one transaction of kernel/file.c and
    kernel/fs.c, interleaved in every way, and the machine may crash at any step.
    After every crash each file has the contents it had after some prefix of the
    transactions. */
module CrashConsistency {
  import opened Bytes
  import opened FileSystem
  import opened Footprints
  import opened Inodes
  import opened Log
  import opened OnDisk
  import opened Params
  import opened Sequences
  import opened Space
  import S = Storage
  import opened Strays
  import TruncLog

  /** A transaction under way: the blocks it may log, the parts it may change, and
      where in the history the first of its states is. */
  datatype Tx = Tx(logged: set<nat>, foot: Foot, first: nat)

  /** `hist` are the states that transactions have led to so far, one after the
      other; `dur` is the last that is durable, `todo` the operations that have not
      started their transaction, `txs` the transactions under way. */
  datatype World = World(s: S.State, sp: S.Spec, hist: seq<Snap>, dur: nat, todo: set<nat>, txs: map<nat, Tx>) {
    function Last(): Snap
      requires |hist| > 0
    {
      hist[|hist| - 1]
    }
  }

  datatype Action =
    | Do(a: S.Action)
    | Start(p: nat, from: nat, to: Snap, f: Foot, g: Foot)
    | More(p: nat, from: nat, to: Snap, f: Foot, g: Foot)
    | Finish(p: nat)

  /** The parts of block `b` that transactions under way may still change. */
  function HeldAt(txs: map<nat, Tx>, b: nat): Foot {
    Foot(set p, i | p in txs && b in txs[p].logged && i in txs[p].foot.inums :: i,
         set p, c | p in txs && b in txs[p].logged && c in txs[p].foot.blocks :: c)
  }

  /** A change worked out from some state `from` leads to `to`, keeping to the
      parts `f`, and what transactions have changed since that state are other
      parts, `g`. */
  ghost predicate Announces(pl: Places, w: World, from: nat, to: Snap, f: Foot, g: Foot) {
    && from < |w.hist| && Step(pl, w.hist[from], to) && Confined(w.hist[from], to, f)
    && Confined(w.hist[from], w.Last(), g) && f.Apart(g)
  }

  ghost function Announced(w: World, p: nat, x: Tx, to: Snap, f: Foot): World
    requires |w.hist| > 0 && SameSize(w.Last(), to)
  {
    w.(todo := w.todo - {p}, txs := w.txs[p := x], hist := w.hist + [Merge(w.Last(), to, f)])
  }

  /** The transaction with a further change. */
  function Further(x: Tx, to: Snap, f: Foot): Tx {
    Tx(x.logged + to.logged, x.foot.Plus(f), x.first)
  }

  /** A transaction announces what it will do, all at once when it starts or part
      by part: the later parts may be worked out from states that others have led
      to meanwhile, and take blocks that others have freed.  Once announced it
      writes its blocks, at the same time as the others, and is over when the
      blocks it announced are in the log and as they should be, but for what others
      still hold. */
  ghost predicate Next(l: Layout, pl: Places, w: World, a: Action, v: World) {
    match a
    case Start(p, from, to, f, g) =>
      && p in w.todo && Announces(pl, w, from, to, f, g)
      && v == Announced(w, p, Tx(to.logged, f, |w.hist|), to, f)
    case More(p, from, to, f, g) =>
      && p in w.txs && Announces(pl, w, from, to, f, g) && |w.txs[p].logged + to.logged| <= MAXOPBLOCKS
      && v == Announced(w, p, Further(w.txs[p], to, f), to, f)
    case Finish(p) =>
      && p in w.txs && |w.hist| > 0
      && (forall b | b in w.txs[p].logged && b < |w.sp.current| ::
            BlockOkBut(pl, w.Last(), b, w.sp.current[b], HeldAt(w.txs - {p}, b)))
      && (forall b | b in w.txs[p].logged && b < |w.sp.current| && !l.InLog(b) :: b in w.s.lh)
      && v == w.(txs := w.txs - {p})
    case Do(a) => S.Next(l, w.s, a, v.s) && v.sp == S.SpecNext(w.sp, w.s, a) && Follows(pl, w, a, v)
  }

  predicate Follows(pl: Places, w: World, a: S.Action, v: World) {
    match a
    case BeginOp(p) => v == w.(s := v.s, sp := v.sp, todo := w.todo + {p})
    case EndOp(p) => p !in w.txs && v == w.(s := v.s, sp := v.sp, todo := w.todo - {p})
    case LogWrite(p, i) => Logs(pl, w, p, i) && v == w.(s := v.s, sp := v.sp)
    case Abandon(p, i) => Abandons(pl, w, p, i) && v == w.(s := v.s, sp := v.sp)
    case WriteHead(_, _) => |w.hist| > 0 && v == w.(s := v.s, sp := v.sp, dur := |w.hist| - 1)
    case Crash => w.dur < |w.hist| && v == w.(s := v.s, sp := v.sp, hist := w.hist[..w.dur + 1], todo := {}, txs := map[])
    case _ => v == w.(s := v.s, sp := v.sp)
  }

  /** `log_write` is called by a transaction under way, on a block it announced, in
      which it changed only its own parts. */
  predicate Logs(pl: Places, w: World, p: nat, i: nat) {
    && p in w.txs && |w.hist| > 0
    && i < |w.s.bufs| && w.s.bufs[i].id.Some?
    && var b := w.s.bufs[i].id.value;
    && b in w.txs[p].logged && b < |w.sp.current|
    && ChangesOnly(pl, w.Last(), b, w.sp.current[b], w.s.bufs[i].data, w.txs[p].foot)
  }

  /** A transaction under way may release changes to any block without logging
      them; where the block is in the log they will be committed all the same, so
      there it keeps to what it announced. */
  predicate Abandons(pl: Places, w: World, p: nat, i: nat) {
    && p in w.txs && i < |w.s.bufs| && w.s.bufs[i].id.Some?
    && (w.s.bufs[i].id.value in w.s.lh ==> Logs(pl, w, p, i))
  }

  // ---------------------------------------------------------------- invariant

  predicate HistOk(pl: Places, w: World) {
    && w.dur < |w.hist|
    && Sound(pl, w.hist[0])
    && forall k | 1 <= k < |w.hist| :: Step(pl, w.hist[k - 1], w.hist[k])
  }

  predicate OpsOk(w: World) {
    && w.todo <= w.s.ops && w.txs.Keys <= w.s.ops && w.todo !! w.txs.Keys
    && (forall p | p in w.txs :: |w.txs[p].logged| <= MAXOPBLOCKS && w.dur < w.txs[p].first < |w.hist|)
  }

  /** The durable disk holds the last durable state.  The current disk holds the
      last state, except for what transactions under way hold. */
  predicate DisksOk(l: Layout, pl: Places, w: World) {
    && w.dur < |w.hist|
    && Holds(l, pl, w.hist[w.dur], w.sp.durable)
    && |w.sp.current| == |w.Last().img.blocks|
    && forall b | 0 <= b < |w.sp.current| && !l.InLog(b) ::
         BlockOkBut(pl, w.Last(), b, w.sp.current[b], HeldAt(w.txs, b))
  }

  /** The entries that transactions under way may still add to the log. */
  function Owed(txs: map<nat, Tx>, lh: seq<nat>): set<(nat, nat)> {
    set p, b | p in txs && b in txs[p].logged && b !in lh :: (p, b)
  }

  /** What they may still announce, a number for each block of their reservations. */
  function Spare(txs: map<nat, Tx>): set<(nat, nat)> {
    set p, k | p in txs && |txs[p].logged| <= k < MAXOPBLOCKS :: (p, k)
  }

  /** What the log may still have to take fits: what transactions under way have
      announced and may announce, and what those to come may. */
  predicate RoomOk(w: World) {
    w.s.phase == S.Idle ==> |w.s.lh| + |Owed(w.txs, w.s.lh)| + |Spare(w.txs)| + MAXOPBLOCKS * |w.todo| <= LOGSIZE
  }

  predicate Inv(l: Layout, pl: Places, w: World) {
    S.Inv(l, w.s, w.sp) && HistOk(pl, w) && OpsOk(w) && DisksOk(l, pl, w) && RoomOk(w)
  }

  // ---------------------------------------------------------------- what is held

  lemma HeldMore(txs: map<nat, Tx>, p: nat, x: Tx, b: nat)
    requires p !in txs
    ensures HeldAt(txs[p := x], b) == if b in x.logged then HeldAt(txs, b).Plus(x.foot) else HeldAt(txs, b)
  {
    var more := txs[p := x];
    assert forall q | q in txs :: more[q] == txs[q];
    assert more[p] == x;
  }

  /** A transaction under way, or a new one, takes on the parts `f` of the blocks `bs`. */
  lemma HeldGrows(txs: map<nat, Tx>, p: nat, x: Tx, bs: set<nat>, f: Foot, b: nat)
    requires p in txs ==> txs[p].logged <= x.logged && txs[p].foot.Within(x.foot)
    requires bs <= x.logged && f.Within(x.foot)
    ensures (if b in bs then HeldAt(txs, b).Plus(f) else HeldAt(txs, b)).Within(HeldAt(txs[p := x], b))
  {
    var more, held, now := txs[p := x], HeldAt(txs, b), HeldAt(txs[p := x], b);
    forall i | i in held.inums ensures i in now.inums {
      var q :| q in txs && b in txs[q].logged && i in txs[q].foot.inums;
      assert q in more && b in more[q].logged && i in more[q].foot.inums;
    }
    forall c | c in held.blocks ensures c in now.blocks {
      var q :| q in txs && b in txs[q].logged && c in txs[q].foot.blocks;
      assert q in more && b in more[q].logged && c in more[q].foot.blocks;
    }
    assert b in bs ==> p in more && b in more[p].logged;
  }

  lemma HeldLess(txs: map<nat, Tx>, p: nat, b: nat)
    requires p in txs && b !in txs[p].logged
    ensures HeldAt(txs - {p}, b) == HeldAt(txs, b)
  {
    var less := txs - {p};
    assert forall q | q in txs && q != p :: q in less && less[q] == txs[q];
  }

  lemma HeldOwn(txs: map<nat, Tx>, p: nat, b: nat)
    requires p in txs && b in txs[p].logged
    ensures txs[p].foot.Within(HeldAt(txs, b))
  {
  }

  lemma HeldNone(b: nat)
    ensures HeldAt(map[], b) == NoFoot
  {
  }

  // ---------------------------------------------------------------- what is owed

  lemma {:induction false} PairSize(p: nat, bs: set<nat>, r: set<(nat, nat)>)
    requires forall x | x in r :: x.0 == p && x.1 in bs
    ensures |r| <= |bs|
  {
    if r != {} {
      var x :| x in r;
      PairSize(p, bs - {x.1}, r - {x});
    }
  }

  lemma OwedMore(txs: map<nat, Tx>, p: nat, x: Tx, lh: seq<nat>)
    requires p !in txs
    ensures |Owed(txs[p := x], lh)| <= |Owed(txs, lh)| + |x.logged|
  {
    var more := txs[p := x];
    var own := set b | b in x.logged && b !in lh :: (p, b);
    assert Owed(more, lh) == Owed(txs, lh) + own by {
      assert forall q | q in txs :: more[q] == txs[q];
    }
    PairSize(p, x.logged, own);
  }

  lemma SpareMore(txs: map<nat, Tx>, p: nat, x: Tx)
    requires p !in txs && |x.logged| <= MAXOPBLOCKS
    ensures |Spare(txs[p := x])| == |Spare(txs)| + MAXOPBLOCKS - |x.logged|
  {
    hide Pairs;
    var more := txs[p := x];
    var own := Pairs(p, |x.logged|, MAXOPBLOCKS - |x.logged|);
    assert forall q | q in more :: if q == p then more[q] == x else q in txs && more[q] == txs[q];
    forall y | y in Spare(more) ensures y in Spare(txs) + own {
    }
    forall y | y in Spare(txs) + own ensures y in Spare(more) {
      assert y.0 in more && |more[y.0].logged| <= y.1 < MAXOPBLOCKS;
    }
    assert Spare(more) == Spare(txs) + own && Spare(txs) !! own;
  }

  function Pairs(p: nat, lo: nat, n: nat): (r: set<(nat, nat)>)
    ensures |r| == n && forall x :: x in r <==> x.0 == p && lo <= x.1 < lo + n
  {
    if n == 0 then {} else Pairs(p, lo, n - 1) + {(p, lo + n - 1)}
  }

  /** What a transaction announces on top is owed, and no longer to spare. */
  lemma FurtherRoom(txs: map<nat, Tx>, p: nat, x: Tx, lh: seq<nat>)
    requires p in txs && txs[p].logged <= x.logged && |x.logged| <= MAXOPBLOCKS
    ensures |Owed(txs[p := x], lh)| + |Spare(txs[p := x])| <= |Owed(txs, lh)| + |Spare(txs)|
  {
    var more, was := txs[p := x], txs[p].logged;
    var own := set b | b in x.logged - was && b !in lh :: (p, b);
    var less := txs - {p};
    assert txs == less[p := txs[p]] && more == less[p := x];
    assert Owed(more, lh) <= Owed(txs, lh) + own by {
      assert forall q | q in less :: more[q] == txs[q];
    }
    SubsetSize(Owed(more, lh), Owed(txs, lh) + own);
    PairSize(p, x.logged - was, own);
    assert x.logged == was + (x.logged - was);
    SubsetSize(was, x.logged);
    SpareMore(less, p, txs[p]);
    SpareMore(less, p, x);
  }

  lemma OwedLess(txs: map<nat, Tx>, p: nat, lh: seq<nat>)
    ensures |Owed(txs - {p}, lh)| <= |Owed(txs, lh)| && |Spare(txs - {p})| <= |Spare(txs)|
  {
    SubsetSize(Owed(txs - {p}, lh), Owed(txs, lh));
    SubsetSize(Spare(txs - {p}), Spare(txs));
  }

  /** A new entry was owed. */
  lemma OwedLogged(txs: map<nat, Tx>, p: nat, lh: seq<nat>, b: nat)
    requires p in txs && b in txs[p].logged && b !in lh
    ensures |Owed(txs, lh + [b])| < |Owed(txs, lh)|
  {
    assert (p, b) in Owed(txs, lh);
    assert Owed(txs, lh + [b]) <= Owed(txs, lh) - {(p, b)};
    SubsetSize(Owed(txs, lh + [b]), Owed(txs, lh) - {(p, b)});
  }

  lemma {:induction false} OwedBound(txs: map<nat, Tx>, lh: seq<nat>)
    requires forall p | p in txs :: |txs[p].logged| <= MAXOPBLOCKS
    ensures |Owed(txs, lh)| + |Spare(txs)| <= MAXOPBLOCKS * |txs|
    decreases |txs|
  {
    if txs == map[] {
      assert Owed(txs, lh) == {} && Spare(txs) == {};
    } else {
      var p :| p in txs;
      var less := txs - {p};
      assert txs == less[p := txs[p]];
      assert |txs| == |less| + 1 by {
        assert txs.Keys == less.Keys + {p};
      }
      OwedBound(less, lh);
      OwedMore(less, p, txs[p], lh);
      SpareMore(less, p, txs[p]);
    }
  }

  // ---------------------------------------------------------------- every step keeps it

  /** The state announced is a step from the last one, whatever others have done
      since the change was worked out. */
  lemma AnnouncedStep(pl: Places, w: World, from: nat, to: Snap, f: Foot, g: Foot)
    requires HistOk(pl, w) && Announces(pl, w, from, to, f, g)
    ensures SameSize(w.Last(), to) && |to.logged| <= MAXOPBLOCKS
    ensures var m := Merge(w.Last(), to, f); Step(pl, w.Last(), m) && Confined(w.Last(), m, f) && m.logged == to.logged
  {
    HistSound(pl, w, |w.hist| - 1);
    hide HistOk, Own, Unchanged, Sound, Journaled;
    Commutes(pl, w.hist[from], to, w.Last(), f, g);
  }

  lemma StartHist(pl: Places, w: World, v: World)
    requires HistOk(pl, w) && |v.hist| > 0 && v.hist == w.hist + [v.Last()] && v.dur == w.dur && Step(pl, w.Last(), v.Last())
    ensures HistOk(pl, v) && v.hist[v.dur] == w.hist[w.dur]
  {
    hide Step, Sound;
    forall k | 1 <= k < |v.hist| ensures Step(pl, v.hist[k - 1], v.hist[k]) {
      if k < |w.hist| {
        assert Step(pl, w.hist[k - 1], w.hist[k]);
      }
    }
  }

  /** What an announcement leaves to prove: that the transaction is in order and
      that the log has room. */
  lemma AnnouncedKeeps(l: Layout, pl: Places, w: World, p: nat, x: Tx, from: nat, to: Snap, f: Foot, g: Foot)
    requires Inv(l, pl, w) && Announces(pl, w, from, to, f, g) && p in w.todo + w.txs.Keys
    requires p in w.txs ==> w.txs[p].logged <= x.logged && w.txs[p].foot.Within(x.foot)
    requires to.logged <= x.logged && f.Within(x.foot) && |x.logged| <= MAXOPBLOCKS && w.dur < x.first <= |w.hist|
    requires |w.hist| > 0 && SameSize(w.Last(), to) && RoomOk(Announced(w, p, x, to, f))
    ensures Inv(l, pl, Announced(w, p, x, to, f))
  {
    hide S.Inv, Holds, Merge, Step, Confined, BlockOkBut, HeldAt, HistOk, RoomOk, Announces, Sound;
    AnnouncedStep(pl, w, from, to, f, g);
    var v := Announced(w, p, x, to, f);
    assert v.Last() == Merge(w.Last(), to, f);
    StartHist(pl, w, v);
    StepSizes(pl, w.Last(), v.Last());
    AnnouncedDisks(l, pl, w, p, x, f, v);
  }

  lemma AnnouncedDisks(l: Layout, pl: Places, w: World, p: nat, x: Tx, f: Foot, v: World)
    requires DisksOk(l, pl, w) && |v.hist| > 0 && v.sp == w.sp && v.txs == w.txs[p := x]
    requires p in w.txs ==> w.txs[p].logged <= x.logged && w.txs[p].foot.Within(x.foot)
    requires v.Last().logged <= x.logged && f.Within(x.foot)
    requires Step(pl, w.Last(), v.Last()) && Confined(w.Last(), v.Last(), f)
    ensures forall b | 0 <= b < |v.sp.current| && !l.InLog(b) :: BlockOkBut(pl, v.Last(), b, v.sp.current[b], HeldAt(v.txs, b))
  {
    hide BlockOkBut, HeldAt, Sound, Unchanged, Journaled, Own;
    forall b | 0 <= b < |v.sp.current| && !l.InLog(b)
      ensures BlockOkBut(pl, v.Last(), b, v.sp.current[b], HeldAt(v.txs, b))
    {
      var held := HeldAt(w.txs, b);
      OkButAnnounced(pl, w.Last(), v.Last(), b, w.sp.current[b], f, held);
      HeldGrows(w.txs, p, x, v.Last().logged, f, b);
      OkButMore(pl, v.Last(), b, w.sp.current[b], if b in v.Last().logged then held.Plus(f) else held, HeldAt(v.txs, b));
    }
  }

  lemma StartKeeps(l: Layout, pl: Places, w: World, a: Action, v: World)
    requires Inv(l, pl, w) && a.Start? && Next(l, pl, w, a, v)
    ensures Inv(l, pl, v)
  {
    hide S.Inv, S.Next, S.SpecNext, Follows, Merge, BlockOkBut, HeldAt, HistOk, Owed, Spare, Announces, DisksOk;
    AnnouncedStep(pl, w, a.from, a.to, a.f, a.g);
    var x := Tx(a.to.logged, a.f, |w.hist|);
    StartRoom(w, a.p, x, v);
    HistThere(pl, w);
    AnnouncedKeeps(l, pl, w, a.p, x, a.from, a.to, a.f, a.g);
  }

  lemma MoreKeeps(l: Layout, pl: Places, w: World, a: Action, v: World)
    requires Inv(l, pl, w) && a.More? && Next(l, pl, w, a, v)
    ensures Inv(l, pl, v)
  {
    hide S.Inv, S.Next, S.SpecNext, Follows, Merge, BlockOkBut, HeldAt, HistOk, Owed, Spare, Announces, DisksOk;
    AnnouncedStep(pl, w, a.from, a.to, a.f, a.g);
    var x := Further(w.txs[a.p], a.to, a.f);
    FurtherRoom(w.txs, a.p, x, w.s.lh);
    assert w.todo - {a.p} == w.todo;
    AnnouncedKeeps(l, pl, w, a.p, x, a.from, a.to, a.f, a.g);
  }

  lemma HistThere(pl: Places, w: World)
    requires HistOk(pl, w)
    ensures w.dur < |w.hist|
  {
  }

  lemma StartRoom(w: World, p: nat, x: Tx, v: World)
    requires RoomOk(w) && p in w.todo && p !in w.txs && |x.logged| <= MAXOPBLOCKS
    requires v.s == w.s && v.todo == w.todo - {p} && v.txs == w.txs[p := x]
    ensures RoomOk(v)
  {
    OwedMore(w.txs, p, x, w.s.lh);
    SpareMore(w.txs, p, x);
    assert |w.todo| == |w.todo - {p}| + 1 by {
      assert w.todo == (w.todo - {p}) + {p};
    }
  }

  lemma FinishKeeps(l: Layout, pl: Places, w: World, p: nat, v: World)
    requires Inv(l, pl, w) && Next(l, pl, w, Finish(p), v)
    ensures Inv(l, pl, v)
  {
    hide S.Inv, BlockOkBut, Holds, Step, HeldAt, Sound;
    OwedLess(w.txs, p, w.s.lh);
    forall b | 0 <= b < |v.sp.current| && !l.InLog(b)
      ensures BlockOkBut(pl, v.Last(), b, v.sp.current[b], HeldAt(v.txs, b))
    {
      if b !in w.txs[p].logged {
        HeldLess(w.txs, p, b);
      }
    }
  }

  lemma LogDistinct(l: Layout, s: S.State, sp: S.Spec)
    requires S.Inv(l, s, sp)
    ensures Distinct(s.lh) && (s.phase != S.Idle ==> s.ops == {}) && (s.phase == S.Cleared ==> s.lh == [])
  {
    hide S.CacheInv, S.PinInv, S.DataInv, S.ScratchInv, S.StrayInv;
  }

  lemma StepSizes(pl: Places, s: Snap, t: Snap)
    requires Step(pl, s, t)
    ensures |t.img.blocks| == |s.img.blocks| && |t.img.inodes| == |s.img.inodes| && |t.logged| <= MAXOPBLOCKS
  {
  }

  // A step of the machine below: what it does to the operations and the log.

  predicate OpsAfter(s: S.State, a: S.Action, t: S.State) {
    match a
    case BeginOp(p) => p !in s.ops && t.ops == s.ops + {p}
    case EndOp(p) => t.ops == s.ops - {p}
    case Crash => t.ops == {}
    case _ => t.ops == s.ops
  }

  predicate LogAfter(s: S.State, a: S.Action, t: S.State) {
    match a
    case BeginOp(p) => s.phase == S.Idle && t.lh == s.lh && |s.lh| + (|s.ops| + 1) * MAXOPBLOCKS <= LOGSIZE
    case EndOp(p) => s.phase == S.Idle && t.lh == s.lh
    case LogWrite(p, i) =>
      && s.phase == S.Idle && i < |s.bufs| && s.bufs[i].id.Some?
      && t.lh == (if s.bufs[i].id.value in s.lh then s.lh else s.lh + [s.bufs[i].id.value])
    case EndCommit => s.phase == S.Cleared && t.lh == s.lh
    case FinishRedo(_, _) => s.phase != S.Idle && t.lh == []
    case WriteHead(_, _) => s.phase != S.Idle && t.phase != S.Idle
    case Crash => t.phase != S.Idle
    case _ => t.phase == S.Idle ==> s.phase == S.Idle && t.lh == s.lh
  }

  lemma OpsShape(l: Layout, s: S.State, a: S.Action, t: S.State)
    requires S.Next(l, s, a, t)
    ensures OpsAfter(s, a, t)
  {
    hide S.Names;
  }

  lemma LogShape(l: Layout, s: S.State, a: S.Action, t: S.State)
    requires S.Next(l, s, a, t)
    ensures LogAfter(s, a, t)
  {
    hide S.Names;
  }

  lemma DoHist(pl: Places, w: World, a: S.Action, v: World)
    requires HistOk(pl, w) && Follows(pl, w, a, v)
    ensures HistOk(pl, v)
  {
    hide Step, Sound, ChangesOnly;
  }

  lemma DoOps(pl: Places, w: World, a: S.Action, v: World)
    requires OpsOk(w) && Follows(pl, w, a, v) && OpsAfter(w.s, a, v.s) && (a.WriteHead? ==> w.s.ops == {})
    ensures OpsOk(v)
  {
    hide ChangesOnly;
  }

  lemma DoDisks(l: Layout, pl: Places, w: World, a: S.Action, v: World)
    requires DisksOk(l, pl, w) && OpsOk(w) && Follows(pl, w, a, v) && v.sp == S.SpecNext(w.sp, w.s, a)
    requires a.WriteHead? ==> w.s.ops == {}
    ensures DisksOk(l, pl, v)
  {
    hide BlockOk, BlockOkBut, ChangesOnly, HeldAt;
    if a.LogWrite? {
      LogDisks(l, pl, w, a.p, a.i, v);
    } else if a.Abandon? {
      if w.s.bufs[a.i].id.value in w.s.lh {
        LogDisks(l, pl, w, a.p, a.i, v);
      }
    } else if a.WriteHead? {
      assert w.txs == map[];
      AllThere(l, pl, w.Last(), w.sp.current);
    } else if a.Crash? {
      AllThere(l, pl, v.Last(), v.sp.current);
    }
  }

  /** With no transaction under way the current disk holds the last state. */
  lemma AllThere(l: Layout, pl: Places, s: Snap, d: Disk)
    requires |d| == |s.img.blocks|
    ensures Holds(l, pl, s, d) <==>
              forall b | 0 <= b < |d| && !l.InLog(b) :: BlockOkBut(pl, s, b, d[b], HeldAt(map[], b))
  {
    hide BlockOk, BlockOkBut, HeldAt;
    forall b | 0 <= b < |d| && !l.InLog(b) ensures BlockOkBut(pl, s, b, d[b], HeldAt(map[], b)) == BlockOk(pl, s, b, d[b]) {
      HeldNone(b);
      OkButNothing(pl, s, b, d[b]);
    }
  }

  lemma LogDisks(l: Layout, pl: Places, w: World, p: nat, i: nat, v: World)
    requires DisksOk(l, pl, w) && Logs(pl, w, p, i) && v == w.(s := v.s, sp := S.SpecNext(w.sp, w.s, S.LogWrite(p, i)))
    ensures DisksOk(l, pl, v)
  {
    hide BlockOk, BlockOkBut, ChangesOnly, HeldAt;
    var b := w.s.bufs[i].id.value;
    HeldOwn(w.txs, p, b);
    if !l.InLog(b) {
      OkButChanged(pl, w.Last(), b, w.sp.current[b], w.s.bufs[i].data, w.txs[p].foot, HeldAt(w.txs, b));
    }
  }

  lemma DoRoom(pl: Places, w: World, a: S.Action, v: World)
    requires RoomOk(w) && OpsOk(w) && OpsOk(v) && Follows(pl, w, a, v) && OpsAfter(w.s, a, v.s) && LogAfter(w.s, a, v.s)
    requires w.s.phase != S.Idle ==> w.s.ops == {} && (w.s.phase == S.Cleared ==> w.s.lh == [])
    ensures RoomOk(v)
  {
    hide ChangesOnly, Owed, Spare;
    match a
    case BeginOp(p) =>
      BeginRoom(w, p, v);
    case EndOp(p) =>
      SubsetSize(v.todo, w.todo);
    case LogWrite(p, i) =>
      if w.s.bufs[i].id.value !in w.s.lh {
        OwedLogged(w.txs, p, w.s.lh, w.s.bufs[i].id.value);
      }
    case EndCommit =>
      OwedNone(v);
    case FinishRedo(_, _) =>
      OwedNone(v);
    case _ =>
  }

  lemma BeginRoom(w: World, p: nat, v: World)
    requires OpsOk(w) && |w.s.lh| + (|w.s.ops| + 1) * MAXOPBLOCKS <= LOGSIZE
    requires v.txs == w.txs && v.s.lh == w.s.lh && v.todo == w.todo + {p}
    ensures RoomOk(v)
  {
    hide Owed, Spare;
    OwedBound(w.txs, w.s.lh);
    Counted(w);
    assert |w.todo + {p}| <= |w.todo| + 1;
  }

  lemma OwedNone(w: World)
    requires OpsOk(w) && w.s.ops == {}
    ensures Owed(w.txs, w.s.lh) == {} && Spare(w.txs) == {} && w.todo == {}
  {
  }

  /** Transactions under way and those to come belong to different operations. */
  lemma Counted(w: World)
    requires OpsOk(w)
    ensures |w.todo| + |w.txs| <= |w.s.ops|
  {
    SubsetSize(w.todo + w.txs.Keys, w.s.ops);
  }

  lemma DoKeeps(l: Layout, pl: Places, w: World, a: S.Action, v: World)
    requires Inv(l, pl, w) && Next(l, pl, w, Do(a), v)
    ensures Inv(l, pl, v)
  {
    hide HistOk, OpsOk, DisksOk, RoomOk, S.Inv, S.Next, S.SpecNext, Follows, OpsAfter, LogAfter;
    S.StepKeepsInv(l, w.s, w.sp, a, v.s);
    OpsShape(l, w.s, a, v.s);
    LogShape(l, w.s, a, v.s);
    LogDistinct(l, w.s, w.sp);
    assert a.WriteHead? ==> w.s.phase != S.Idle by {
      AtCommit(w.s, a, v.s);
    }
    DoHist(pl, w, a, v);
    DoOps(pl, w, a, v);
    DoDisks(l, pl, w, a, v);
    DoRoom(pl, w, a, v);
  }

  lemma AtCommit(s: S.State, a: S.Action, t: S.State)
    requires LogAfter(s, a, t)
    ensures a.WriteHead? ==> s.phase != S.Idle
  {
  }

  // ---------------------------------------------------------------- runs

  datatype Run = Boot(last: World) | Then(before: Run, a: Action, last: World)

  /** The machine starts on any disk from which recovery gives a sound file system. */
  ghost predicate Init(l: Layout, pl: Places, w: World) {
    && S.Init(l, w.s, w.sp) && |w.hist| == 1 && w.dur == 0 && w.todo == {} && w.txs == map[]
    && Sound(pl, w.hist[0]) && Holds(l, pl, w.hist[0], w.sp.durable)
  }

  ghost predicate IsRun(l: Layout, pl: Places, r: Run) {
    match r
    case Boot(w) => Init(l, pl, w)
    case Then(q, a, w) => IsRun(l, pl, q) && Next(l, pl, q.last, a, w)
  }

  lemma {:induction false} RunInv(l: Layout, pl: Places, r: Run)
    requires IsRun(l, pl, r)
    ensures Inv(l, pl, r.last)
  {
    match r
    case Boot(w) => InitInv(l, pl, w);
    case Then(q, a, w) =>
      hide Inv, Next;
      RunInv(l, pl, q);
      match a {
        case Start(_, _, _, _, _) => StartKeeps(l, pl, q.last, a, w);
        case More(_, _, _, _, _) => MoreKeeps(l, pl, q.last, a, w);
        case Finish(p) => FinishKeeps(l, pl, q.last, p, w);
        case Do(b) => DoKeeps(l, pl, q.last, b, w);
      }
  }

  lemma InitInv(l: Layout, pl: Places, w: World)
    requires Init(l, pl, w)
    ensures Inv(l, pl, w)
  {
    hide Sound, BlockOk, BlockOkBut, HeldAt;
    S.RunInv(l, S.Boot(w.s, w.sp));
    AllThere(l, pl, w.Last(), w.sp.current);
    assert Owed(w.txs, w.s.lh) == {} && Spare(w.txs) == {};
  }

  /** The states after the transactions of a run, and their sizes. */
  lemma {:induction false} HistSound(pl: Places, w: World, k: nat)
    requires HistOk(pl, w) && k < |w.hist|
    ensures Sound(pl, w.hist[k]) && |w.hist[k].img.inodes| == |w.hist[0].img.inodes|
    ensures |w.hist[k].img.blocks| == |w.hist[0].img.blocks|
  {
    if k > 0 {
      HistSound(pl, w, k - 1);
      assert Step(pl, w.hist[k - 1], w.hist[k]);
    }
  }

  /** Wherever the machine stops, recovery leaves a disk on which every file has
      the contents it had after a prefix of the transactions made so far: those
      up to the last commit.  No part of a transaction under way is among them. */
  lemma CrashPrefix(l: Layout, pl: Places, r: Run, i: nat)
    requires IsRun(l, pl, r)
    ensures r.last.dur < |r.last.hist| && Recoverable(l, r.last.s.disk)
    ensures forall p | p in r.last.txs :: r.last.dur < r.last.txs[p].first
    ensures var s := r.last.hist[r.last.dur];
            var d := Recovered(l, r.last.s.disk);
            && Sound(pl, s) && Holds(l, pl, s, d)
            && (i < |s.img.inodes| && pl.Apart(l, |d|, |s.img.inodes|) ==>
                  && Readable(pl, d, |s.img.inodes|)
                  && var img := DiskImage(pl, d, |s.img.inodes|);
                     Shaped(img) && SizesFit(img) && i < |img.inodes| && Content(img, i) == Content(s.img, i))
  {
    RunInv(l, pl, r);
    var w := r.last;
    RecoveredHome(l, w.s, w.sp);
    hide S.Inv, BlockOk, IsRun, Step, Content, DiskImage;
    HistSound(pl, w, w.dur);
    SameHolds(l, pl, w.hist[w.dur], w.sp.durable, Recovered(l, w.s.disk));
    if i < |w.hist[w.dur].img.inodes| && pl.Apart(l, |w.s.disk|, |w.hist[w.dur].img.inodes|) {
      SameFiles(l, pl, w.hist[w.dur], Recovered(l, w.s.disk), i);
    }
  }

  lemma RecoveredHome(l: Layout, s: S.State, sp: S.Spec)
    requires S.Inv(l, s, sp)
    ensures Recoverable(l, s.disk) && SameHome(l, sp.durable, Recovered(l, s.disk))
  {
    S.DiskRecoverable(l, s, sp);
    forall b | 0 <= b < |s.disk| && !l.InLog(b) ensures Recovered(l, s.disk)[b] == sp.durable[b] {
      S.RecoveryGivesDurable(l, s, sp, b);
    }
  }

  predicate PrefixKept(w: World, a: Action, v: World) {
    && w.dur <= v.dur && w.dur < |w.hist| && w.dur < |v.hist| && v.hist[..w.dur + 1] == w.hist[..w.dur + 1]
    && (v.dur != w.dur ==> a.Do? && a.a.WriteHead? && v.dur == |v.hist| - 1 && w.txs == map[])
    && (|v.hist| < |w.hist| ==> a.Do? && a.a.Crash? && |v.hist| == w.dur + 1)
  }

  /** A note to `CrashPrefix`: the durable prefix grows when a commit writes its
      header, and then takes in every transaction made so far; nothing else moves
      it, and a crash drops the transactions after it and no others. */
  lemma PrefixMoves(l: Layout, pl: Places, q: Run, a: Action, w: World)
    requires IsRun(l, pl, Then(q, a, w))
    ensures PrefixKept(q.last, a, w)
  {
    hide IsRun, HistOk, OpsOk, S.Inv, S.Next, S.SpecNext, DisksOk, RoomOk, Announces, LogAfter, Follows, BlockOkBut, HeldAt, Merge, PrefixKept;
    RunBefore(l, pl, q, a, w);
    RunInv(l, pl, q);
    if !a.Do? {
      AnnouncedPrefix(l, pl, q.last, a, w);
    } else {
      LogDistinct(l, q.last.s, q.last.sp);
      LogShape(l, q.last.s, a.a, w.s);
      AtCommit(q.last.s, a.a, w.s);
      DoPrefix(pl, q.last, a.a, w);
    }
  }

  lemma RunBefore(l: Layout, pl: Places, q: Run, a: Action, w: World)
    requires IsRun(l, pl, Then(q, a, w))
    ensures IsRun(l, pl, q) && Next(l, pl, q.last, a, w)
  {
    hide Next;
  }

  lemma AnnouncedPrefix(l: Layout, pl: Places, w: World, a: Action, v: World)
    requires HistOk(pl, w) && Next(l, pl, w, a, v) && !a.Do?
    ensures PrefixKept(w, a, v)
  {
    hide Step, Sound, Announces, Merge, BlockOkBut, HeldAt, S.Next, S.SpecNext, Follows;
  }

  lemma DoPrefix(pl: Places, w: World, a: S.Action, v: World)
    requires HistOk(pl, w) && OpsOk(w) && Follows(pl, w, a, v) && (a.WriteHead? ==> w.s.ops == {})
    ensures PrefixKept(w, Do(a), v)
  {
    hide Step, Sound, ChangesOnly;
  }

  /** Transactions that log only what they announced never find the log full, on a
      disk whose log has room for a full header. */
  lemma LogHasRoom(l: Layout, pl: Places, r: Run, p: nat, b: nat)
    requires IsRun(l, pl, r) && p in r.last.txs && b in r.last.txs[p].logged && b !in r.last.s.lh
    ensures |r.last.s.lh| < LOGSIZE
    ensures l.size >= LOGSIZE + 1 ==> |r.last.s.lh| < l.size - 1
  {
    RunInv(l, pl, r);
    var w := r.last;
    LogDistinct(l, w.s, w.sp);
    assert (p, b) in Owed(w.txs, w.s.lh);
  }

  // ---------------------------------------------------------------- the transactions of the file system

  /** A transaction of `filewrite`, worked out from what processes see of a state,
      can start there and keeps to the inode and its blocks.  What it leaks goes
      into the log if the block is there already (`caught`); if not, processes see
      it from then on. */
  lemma WriteIsStep(pl: Places, s: Snap, v: Snap, stray: set<nat>, u: Snap,
                    i: nat, off: nat, n: nat, src: seq<byte>, r: int, leak: nat, caught: bool)
    returns (t: Snap, left: set<nat>)
    requires Seen(s, v, stray) && Sound(pl, v) && Sound(pl, u) && Transacted(v, u, i, off, n, src, r, leak)
    requires JournaledBut(pl.bmapstart, pl.inodestart, v, u, LeakedBy(u.img, i, off, r, leak)) && Grew(v, u, i)
    ensures Step(pl, s, t) && Confined(s, t, FootOf(s, t, i)) && Seen(t, u, left)
    ensures var leaked := LeakedBy(u.img, i, off, r, leak);
            && t.logged == (if caught then u.logged + leaked else u.logged)
            && left <= stray + leaked && (caught ==> left !! leaked)
  {
    hide Seen, Grew, JournaledBut, Sound, Confined, FootOf;
    LeakedOwned(pl, u, i, off, r, leak);
    t, left := WriteSeen(pl, s, v, stray, u, i, LeakedBy(u.img, i, off, r, leak), caught);
  }

  lemma LeakedOwned(pl: Places, u: Snap, i: nat, off: nat, r: int, leak: nat)
    requires Sound(pl, u)
    ensures LeakOf(u, i, LeakedBy(u.img, i, off, r, leak))
  {
    hide Solid, OwnersHold;
  }

  /** So can a truncation wherever the blocks in use are low enough. */
  lemma TruncIsStep(pl: Places, s: Snap, v: Snap, stray: set<nat>, u: Snap, i: nat, top: nat) returns (t: Snap)
    requires Seen(s, v, stray) && Sound(pl, v) && Sound(pl, u) && i < |v.img.inodes|
    requires TruncLog.Below(v.owner, top) && TruncLog.DataMaps(pl.nmeta, top) < MAXOPBLOCKS
    requires Journaled(pl.bmapstart, pl.inodestart, v, u) && Shrunk(v, u, i)
    requires u.logged == MapBlocks(pl.bmapstart, v.img, i, INDIRECT + 1) + {i / IPB + pl.inodestart}
    ensures Step(pl, s, t) && Confined(s, t, FootOf(s, t, i)) && Seen(t, u, stray) && t.logged == u.logged
  {
    hide Seen, Confined, FootOf, Sound, Journaled, Shrunk;
    TruncFits(pl, v, u, i, top);
    t := TruncSeen(pl, s, v, stray, u, i);
  }

  lemma TruncFits(pl: Places, s: Snap, t: Snap, i: nat, top: nat)
    requires Sound(pl, s) && Sound(pl, t) && i < |s.img.inodes| && TruncLog.Below(s.owner, top) && TruncLog.DataMaps(pl.nmeta, top) < MAXOPBLOCKS
    requires t.logged == MapBlocks(pl.bmapstart, s.img, i, INDIRECT + 1) + {i / IPB + pl.inodestart}
    ensures |t.logged| <= MAXOPBLOCKS
  {
    hide MapBlocks, Solid, SlotsOwned, OwnersHold, TruncLog.DataMaps;
    TruncLog.TruncBound(pl.nmeta, s.bits, s.img, s.owner, top, pl.bmapstart, i, i / IPB + pl.inodestart);
  }

  /** Transactions on different files, each worked out from the same state and
      taking different free blocks, have nothing in common. */
  lemma FilesApart(pl: Places, s: Snap, t: Snap, u: Snap, i: nat, j: nat)
    requires Sound(pl, s) && i != j && Confined(s, t, FootOf(s, t, i)) && Confined(s, u, FootOf(s, u, j))
    requires forall b | b in t.owner && b in u.owner :: b in s.owner
    ensures FootOf(s, t, i).Apart(FootOf(s, u, j)) && i in FootOf(s, t, i).inums && j in FootOf(s, u, j).inums
  {
  }

  /** So two operations that work on different files can have their transactions
      under way together, in either order, and the state they lead to has what
      each of them did to its file. */
  lemma BothStart(l: Layout, pl: Places, w: World, p: nat, q: nat, i: nat, j: nat, t: Snap, u: Snap)
    returns (v: World, x: World)
    requires HistOk(pl, w) && p in w.todo && q in w.todo && p != q && i != j
    requires i < |w.Last().img.inodes| && j < |w.Last().img.inodes|
    requires Step(pl, w.Last(), t) && Confined(w.Last(), t, FootOf(w.Last(), t, i))
    requires Step(pl, w.Last(), u) && Confined(w.Last(), u, FootOf(w.Last(), u, j))
    requires forall b | b in t.owner && b in u.owner :: b in w.Last().owner
    ensures Next(l, pl, w, Start(p, |w.hist| - 1, t, FootOf(w.Last(), t, i), NoFoot), v)
    ensures Next(l, pl, v, Start(q, |w.hist| - 1, u, FootOf(w.Last(), u, j), FootOf(w.Last(), t, i)), x)
    ensures |x.hist| > 0 && Sound(pl, x.Last()) && |x.Last().img.inodes| == |w.Last().img.inodes|
    ensures Content(x.Last().img, i) == Content(t.img, i) && Content(x.Last().img, j) == Content(u.img, j)
  {
    hide Confined, Owned, NoHoles, Merge, FootOf, Step, Content, S.Next, S.SpecNext, Follows, BlockOkBut, HeldAt;
    var s := w.Last();
    var f, g := FootOf(s, t, i), FootOf(s, u, j);
    HistSound(pl, w, |w.hist| - 1);
    FilesApart(pl, s, t, u, i, j);
    ConfinedNone(s);
    Both(pl, s, t, u, f, g);
    v := Announced(w, p, Tx(t.logged, f, |w.hist|), t, f);
    assert v.hist[|w.hist| - 1] == s;
    x := Announced(v, q, Tx(u.logged, g, |v.hist|), u, g);
  }

  /** While a transaction that grows file `i` is under way, another can truncate
      file `j`, and the first can go on and take the blocks that this freed. */
  lemma TakesFreed(l: Layout, pl: Places, w: World, p: nat, q: nat, i: nat, j: nat, t: Snap, u: Snap)
    returns (v: World, x: World)
    requires HistOk(pl, w) && p in w.txs && q in w.todo && p != q && i != j
    requires Step(pl, w.Last(), t) && Shrunk(w.Last(), t, j) && Step(pl, t, u) && Grew(t, u, i)
    requires |w.txs[p].logged + u.logged| <= MAXOPBLOCKS
    ensures Next(l, pl, w, Start(q, |w.hist| - 1, t, FootOf(w.Last(), t, j), NoFoot), v)
    ensures Next(l, pl, v, More(p, |w.hist|, u, FootOf(t, u, i), NoFoot), x)
    ensures x.hist == w.hist + [t, u] && p in x.txs && q in x.txs
  {
    hide Confined, Owned, Solid, Merge, FootOf, Journaled, S.Next, S.SpecNext, Follows, BlockOkBut, HeldAt, Grew, Shrunk;
    var s := w.Last();
    HistSound(pl, w, |w.hist| - 1);
    ShrunkConfined(pl, s, t, j);
    GrewConfined(pl, t, u, i);
    ConfinedNone(s);
    ConfinedNone(t);
    Merged(s, t, FootOf(s, t, j));
    Merged(t, u, FootOf(t, u, i));
    v := Announced(w, q, Tx(t.logged, FootOf(s, t, j), |w.hist|), t, FootOf(s, t, j));
    assert v.Last() == t;
    x := Announced(v, p, Further(w.txs[p], u, FootOf(t, u, i)), u, FootOf(t, u, i));
  }

  lemma Merged(s: Snap, t: Snap, f: Foot)
    requires Confined(s, t, f)
    ensures SameSize(s, t) && Merge(s, t, f) == t
  {
    hide Own, Merge;
    MergeSelf(s, t, f);
  }
}
