/** The buffer cache and the log together (kernel/bio.c under kernel/log.c),
    with any number of processes interleaving at every critical section and
    every single-block disk write, and with crashes anywhere.  Everything a
    process or a later boot can read is one logical disk. */
module Storage {
  import opened Bytes
  import opened Log
  import opened Options
  import opened Params
  import opened Sequences

  /** One cache buffer.  `users` are the processes that took a reference in
      `bget` and have not yet given it back in `brelse`; `holder` has the
      sleep-lock.  `scratch` marks contents the holder has changed and not yet
      logged or written to disk; `stray` marks such contents that were released
      as they were. */
  datatype Buf = Buf(id: Option<nat>, valid: bool, refcnt: nat, users: set<nat>, holder: Option<nat>, data: Block,
                     scratch: bool, stray: bool) {
    /** The buffer has contents, and they are what was last read, logged or written. */
    predicate Settled() {
      valid && id.Some? && !scratch && !stray
    }
  }

  /** Where the log is: `Copying`, `Installing` and `Cleared` are inside
      `commit`; `Booting` and `Redoing` are inside `recover_from_log`. */
  datatype Phase = Idle | Copying(tail: nat) | Installing(tail: nat) | Cleared | Booting | Redoing(tail: nat)

  datatype State = State(disk: Disk, bufs: seq<Buf>, lh: seq<nat>, ops: set<nat>, phase: Phase) {
    predicate Recovering() {
      phase.Booting? || phase.Redoing?
    }

    /** The log entries from this one on are pinned in the cache: `log_write`
        pinned them and `install_trans` has not yet unpinned them. */
    function FirstPin(): nat {
      match phase
      case Idle => 0
      case Copying(_) => 0
      case Installing(t) => t
      case _ => |lh|
    }

    predicate Pinned(b: nat) {
      exists k :: FirstPin() <= k < |lh| && lh[k] == b
    }

    /** The block that `commit` or recovery is about to write to disk. */
    function Target(l: Layout): Option<nat> {
      match phase
      case Copying(t) => Some(if t < |lh| then l.start + t + 1 else l.start)
      case Installing(t) => Some(if t < |lh| then lh[t] else l.start)
      case Redoing(t) => Some(if t < |lh| then lh[t] else l.start)
      case _ => None
    }

    /** Process `p` has block `b` locked in buffer `i`, with its contents. */
    predicate Holds(p: nat, i: nat, b: nat) {
      i < |bufs| && bufs[i].id == Some(b) && bufs[i].valid && bufs[i].holder == Some(p)
    }
  }

  /** The specification: the logical disk as readers see it, and the one that
      survives a crash. */
  datatype Spec = Spec(current: Disk, durable: Disk)

  datatype Action =
    | GetHit(p: nat, i: nat)
    | GetMiss(p: nat, i: nat, b: nat)
    | Lock(p: nat, i: nat)
    | Fill(p: nat, i: nat)
    | Modify(p: nat, i: nat, data: Block)
    | LogWrite(p: nat, i: nat)
    | Abandon(p: nat, i: nat)
    | Unlock(p: nat, i: nat)
    | Put(p: nat, i: nat)
    | BeginOp(p: nat)
    | EndOp(p: nat)
    | CopyBlock(p: nat, to: nat, from: nat)
    | WriteHead(p: nat, i: nat)
    | Install(p: nat, lb: nat, db: nat)
    | ClearHead(p: nat, i: nat)
    | EndCommit
    | Crash
    | ReadHead(p: nat, i: nat)
    | RedoBlock(p: nat, lb: nat, db: nat)
    | FinishRedo(p: nat, i: nat)

  /** A header block that names exactly these blocks. */
  predicate Names(h: Block, lh: seq<nat>) {
    Word(h, 0) <= LOGSIZE && HeaderBlocks(h) == lh
  }

  function EmptyBuf(): Buf {
    Buf(None, false, 0, {}, None, Zeroed(), false, false)
  }

  /** Reference counting and locking in the cache. */
  predicate CacheStep(s: State, a: Action, t: State) {
    match a
    case GetHit(p, i) =>
      && i < |s.bufs| && s.bufs[i].id.Some? && p !in s.bufs[i].users
      && t == s.(bufs := s.bufs[i := s.bufs[i].(refcnt := s.bufs[i].refcnt + 1, users := s.bufs[i].users + {p})])
    case GetMiss(p, i, b) =>
      && i < |s.bufs| && b < |s.disk|
      && (forall j | 0 <= j < |s.bufs| :: s.bufs[j].id != Some(b))
      && s.bufs[i].refcnt == 0
      && t == s.(bufs := s.bufs[i := s.bufs[i].(id := Some(b), valid := false, refcnt := 1, users := s.bufs[i].users + {p}, stray := false)])
    case Lock(p, i) =>
      && i < |s.bufs| && p in s.bufs[i].users && s.bufs[i].holder.None?
      && t == s.(bufs := s.bufs[i := s.bufs[i].(holder := Some(p))])
    case Unlock(p, i) =>
      && i < |s.bufs| && s.bufs[i].holder == Some(p) && !s.bufs[i].scratch
      && t == s.(bufs := s.bufs[i := s.bufs[i].(holder := None)])
    case Put(p, i) =>
      && i < |s.bufs| && p in s.bufs[i].users && s.bufs[i].holder != Some(p) && s.bufs[i].refcnt >= 1
      && t == s.(bufs := s.bufs[i := s.bufs[i].(refcnt := s.bufs[i].refcnt - 1, users := s.bufs[i].users - {p})])
    case _ => false
  }

  /** Who may change block `b` in memory: an operation, outside the log, while no
      commit is under way; or whoever is about to write that very block to disk. */
  predicate MayModify(l: Layout, s: State, p: nat, b: nat) {
    if s.phase == Idle then p in s.ops && !l.InLog(b) else s.Target(l) == Some(b)
  }

  /** Filling a buffer from disk, changing it, and handing the change to the log:
      three steps, with other processes in between.  A `writei` whose copy fails
      releases what it changed without logging it; if the block is in the log
      already, that commits all the same. */
  predicate DataStep(l: Layout, s: State, a: Action, t: State) {
    match a
    case Fill(p, i) =>
      && i < |s.bufs| && s.bufs[i].holder == Some(p) && !s.bufs[i].valid
      && s.bufs[i].id.Some? && s.bufs[i].id.value < |s.disk|
      && t == s.(bufs := s.bufs[i := s.bufs[i].(valid := true, data := s.disk[s.bufs[i].id.value])])
    case Modify(p, i, data) =>
      && i < |s.bufs| && s.bufs[i].id.Some?
      && s.Holds(p, i, s.bufs[i].id.value) && MayModify(l, s, p, s.bufs[i].id.value)
      && t == s.(bufs := s.bufs[i := s.bufs[i].(data := data, scratch := true)])
    case LogWrite(p, i) =>
      && i < |s.bufs| && s.bufs[i].id.Some?
      && var b := s.bufs[i].id.value;
      && s.Holds(p, i, b) && p in s.ops && s.phase == Idle
      && !l.InLog(b) && b < UINT_MAX1
      && |s.lh| < LOGSIZE && |s.lh| < l.size - 1
      && t == if b in s.lh then s.(bufs := s.bufs[i := s.bufs[i].(scratch := false)])
              else s.(lh := s.lh + [b],
                      bufs := s.bufs[i := s.bufs[i].(refcnt := s.bufs[i].refcnt + 1, scratch := false, stray := false)])
    case Abandon(p, i) =>
      && i < |s.bufs| && s.bufs[i].id.Some? && s.Holds(p, i, s.bufs[i].id.value)
      && s.phase == Idle && s.bufs[i].scratch
      && t == s.(bufs := s.bufs[i := s.bufs[i].(holder := None, scratch := false, stray := s.bufs[i].id.value !in s.lh)])
    case BeginOp(p) =>
      && s.phase == Idle && p !in s.ops
      && |s.lh| + (|s.ops| + 1) * MAXOPBLOCKS <= LOGSIZE
      && t == s.(ops := s.ops + {p})
    case EndOp(p) =>
      && s.phase == Idle && p in s.ops
      && (forall i | 0 <= i < |s.bufs| && s.bufs[i].scratch :: s.bufs[i].holder != Some(p))
      && t == s.(ops := s.ops - {p},
                 phase := if s.ops != {p} then Idle else if s.lh == [] then Cleared else Copying(0))
    case _ => false
  }

  /** The disk writes of `commit`: each writes a buffer that already has the
      contents meant for it. */
  predicate CommitStep(l: Layout, s: State, a: Action, t: State)
    requires l.Fits(s.disk) && Loggable(l, s.disk, s.lh)
  {
    match a
    case CopyBlock(p, to, from) =>
      && s.phase.Copying? && s.phase.tail < |s.lh|
      && s.Holds(p, to, l.start + s.phase.tail + 1) && s.Holds(p, from, s.lh[s.phase.tail])
      && s.bufs[to].data == s.bufs[from].data
      && t == s.(disk := s.disk[l.start + s.phase.tail + 1 := s.bufs[to].data],
                 bufs := s.bufs[to := s.bufs[to].(scratch := false)],
                 phase := Copying(s.phase.tail + 1))
    case WriteHead(p, i) =>
      && s.phase == Copying(|s.lh|) && s.Holds(p, i, l.start) && Names(s.bufs[i].data, s.lh)
      && t == s.(disk := s.disk[l.start := s.bufs[i].data],
                 bufs := s.bufs[i := s.bufs[i].(scratch := false)],
                 phase := Installing(0))
    case Install(p, lb, db) =>
      && s.phase.Installing? && s.phase.tail < |s.lh|
      && s.Holds(p, lb, l.start + s.phase.tail + 1) && s.Holds(p, db, s.lh[s.phase.tail])
      && s.bufs[db].data == s.bufs[lb].data && s.bufs[db].refcnt >= 1
      && t == s.(disk := s.disk[s.lh[s.phase.tail] := s.bufs[db].data],
                 bufs := s.bufs[db := s.bufs[db].(refcnt := s.bufs[db].refcnt - 1, scratch := false)],
                 phase := Installing(s.phase.tail + 1))
    case ClearHead(p, i) =>
      && s.phase == Installing(|s.lh|) && s.Holds(p, i, l.start) && Names(s.bufs[i].data, [])
      && t == s.(disk := s.disk[l.start := s.bufs[i].data],
                 bufs := s.bufs[i := s.bufs[i].(scratch := false)],
                 lh := [], phase := Cleared)
    case EndCommit =>
      s.phase == Cleared && t == s.(phase := Idle)
    case _ => false
  }

  /** A crash loses memory and keeps the disk; `recover_from_log` follows. */
  predicate RecoveryStep(l: Layout, s: State, a: Action, t: State)
    requires l.Fits(s.disk) && Loggable(l, s.disk, s.lh)
  {
    match a
    case Crash =>
      t == State(s.disk, seq(|s.bufs|, _ => EmptyBuf()), [], {}, Booting)
    case ReadHead(p, i) =>
      && s.phase == Booting && s.Holds(p, i, l.start) && Word(s.bufs[i].data, 0) <= LOGSIZE
      && t == s.(lh := HeaderBlocks(s.bufs[i].data), phase := Redoing(0))
    case RedoBlock(p, lb, db) =>
      && s.phase.Redoing? && s.phase.tail < |s.lh|
      && s.Holds(p, lb, l.start + s.phase.tail + 1) && s.Holds(p, db, s.lh[s.phase.tail])
      && s.bufs[db].data == s.bufs[lb].data
      && t == s.(disk := s.disk[s.lh[s.phase.tail] := s.bufs[db].data],
                 bufs := s.bufs[db := s.bufs[db].(scratch := false)],
                 phase := Redoing(s.phase.tail + 1))
    case FinishRedo(p, i) =>
      && s.phase == Redoing(|s.lh|) && s.Holds(p, i, l.start) && Names(s.bufs[i].data, [])
      && t == s.(disk := s.disk[l.start := s.bufs[i].data],
                 bufs := s.bufs[i := s.bufs[i].(scratch := false)],
                 lh := [], phase := Idle)
    case _ => false
  }

  predicate Next(l: Layout, s: State, a: Action, t: State) {
    && l.Fits(s.disk) && Loggable(l, s.disk, s.lh)
    && (CacheStep(s, a, t) || DataStep(l, s, a, t) || CommitStep(l, s, a, t) || RecoveryStep(l, s, a, t))
  }

  /** A logged write, and a change abandoned in a logged block, changes the current disk, writing the header makes the
      current disk durable, and a crash falls back to the durable disk. */
  function SpecNext(sp: Spec, s: State, a: Action): Spec {
    match a
    case LogWrite(p, i) =>
      if i < |s.bufs| && s.bufs[i].id.Some? && s.bufs[i].id.value < |sp.current|
      then sp.(current := sp.current[s.bufs[i].id.value := s.bufs[i].data]) else sp
    case Abandon(p, i) =>
      if i < |s.bufs| && s.bufs[i].id.Some? && s.bufs[i].id.value < |sp.current| && s.bufs[i].id.value in s.lh
      then sp.(current := sp.current[s.bufs[i].id.value := s.bufs[i].data]) else sp
    case WriteHead(_, _) => sp.(durable := sp.current)
    case Crash => sp.(current := sp.durable)
    case _ => sp
  }

  // ---------------------------------------------------------------- invariant

  /** At most one buffer per block; a buffer's count is its users plus its pin. */
  predicate CacheInv(s: State) {
    && (forall i | 0 <= i < |s.bufs| && s.bufs[i].id.Some? :: s.bufs[i].id.value < |s.disk|)
    && (forall i, j | 0 <= i < j < |s.bufs| && s.bufs[i].id.Some? :: s.bufs[i].id != s.bufs[j].id)
    && (forall i | 0 <= i < |s.bufs| :: BufInv(s, s.bufs[i]))
  }

  predicate BufInv(s: State, b: Buf) {
    && (b.id.None? ==> !b.valid && b.users == {})
    && (b.holder.Some? ==> b.holder.value in b.users)
    && b.refcnt == |b.users| + (if b.id.Some? && s.Pinned(b.id.value) then 1 else 0)
  }

  /** Every pinned block is cached, with its contents. */
  predicate PinInv(s: State) {
    forall k | s.FirstPin() <= k < |s.lh| :: Cached(s, s.lh[k])
  }

  predicate Cached(s: State, b: nat) {
    exists i :: 0 <= i < |s.bufs| && s.bufs[i].id == Some(b) && s.bufs[i].valid
  }

  /** What a buffer for block `b` must contain. */
  function Contents(l: Layout, s: State, sp: Spec, b: nat): Block
    requires b < |s.disk| == |sp.current|
  {
    if s.Recovering() || l.InLog(b) then s.disk[b] else sp.current[b]
  }

  /** Changed contents are held: by an operation that has yet to log them, or in
      the one block that `commit` or recovery is about to write. */
  predicate ScratchInv(l: Layout, s: State) {
    forall i | 0 <= i < |s.bufs| && s.bufs[i].scratch :: ScratchHeld(l, s, s.bufs[i])
  }

  predicate ScratchHeld(l: Layout, s: State, b: Buf) {
    b.id.Some? && b.valid && b.holder.Some? && MayModify(l, s, b.holder.value, b.id.value)
  }

  /** Contents that were released without being logged are outside the log and
      not pinned, so no commit sees them. */
  predicate StrayInv(l: Layout, s: State) {
    forall i | 0 <= i < |s.bufs| && s.bufs[i].stray :: StrayAside(l, s, s.bufs[i])
  }

  predicate StrayAside(l: Layout, s: State, b: Buf) {
    b.id.Some? && b.valid && !s.Recovering() && !l.InLog(b.id.value) && !s.Pinned(b.id.value)
  }

  /** A buffer with settled contents holds the logical contents of its block. */
  predicate DataInv(l: Layout, s: State, sp: Spec) {
    && |sp.current| == |sp.durable| == |s.disk|
    && (forall i | 0 <= i < |s.bufs| && s.bufs[i].Settled() ::
          s.bufs[i].id.value < |s.disk| && s.bufs[i].data == Contents(l, s, sp, s.bufs[i].id.value))
    && (!s.Recovering() ==>
          forall b | 0 <= b < |s.disk| && !l.InLog(b) && !s.Pinned(b) :: s.disk[b] == sp.current[b])
  }

  predicate EmptyHeader(l: Layout, d: Disk)
    requires l.Fits(d)
  {
    Word(d[l.start], 0) == 0
  }

  function LogCopy(l: Layout, d: Disk, k: nat): Block
    requires l.start + 1 + k < |d|
  {
    d[l.start + 1 + k]
  }

  /** The first `n` logged copies on disk are the current contents. */
  predicate CopiesAre(l: Layout, s: State, sp: Spec, n: nat)
    requires n <= |s.lh| && l.start + 1 + n <= |s.disk| == |sp.current|
    requires Loggable(l, s.disk, s.lh)
  {
    forall k | 0 <= k < n :: LogCopy(l, s.disk, k) == sp.current[s.lh[k]]
  }

  predicate Header(l: Layout, d: Disk, lh: seq<nat>)
    requires l.Fits(d)
  {
    Names(d[l.start], lh)
  }

  predicate LaterIn(lh: seq<nat>, t: nat, b: nat) {
    exists k :: t <= k < |lh| && lh[k] == b
  }

  predicate PhaseInv(l: Layout, s: State, sp: Spec) {
    && l.Fits(s.disk) && Loggable(l, s.disk, s.lh)
    && |sp.current| == |sp.durable| == |s.disk|
    && match s.phase
       case Idle => EmptyHeader(l, s.disk) && SameHome(l, s.disk, sp.durable)
       case Copying(t) =>
         && EmptyHeader(l, s.disk) && SameHome(l, s.disk, sp.durable)
         && s.ops == {} && 0 < |s.lh| && t <= |s.lh| && CopiesAre(l, s, sp, t)
       case Installing(t) =>
         && Header(l, s.disk, s.lh) && sp.durable == sp.current
         && s.ops == {} && t <= |s.lh| && CopiesAre(l, s, sp, |s.lh|)
       case Cleared => EmptyHeader(l, s.disk) && SameHome(l, s.disk, sp.durable) && s.ops == {} && s.lh == []
       case Booting =>
         && Recoverable(l, s.disk) && sp.durable == sp.current && s.ops == {} && s.lh == []
         && forall b | 0 <= b < |s.disk| && !l.InLog(b) :: Recovered(l, s.disk)[b] == sp.durable[b]
       case Redoing(t) =>
         && Header(l, s.disk, s.lh) && sp.durable == sp.current && s.ops == {}
         && t <= |s.lh| && CopiesAre(l, s, sp, |s.lh|)
         && (forall b | 0 <= b < |s.disk| && !l.InLog(b) && !LaterIn(s.lh, t, b) :: s.disk[b] == sp.durable[b])
  }

  predicate Inv(l: Layout, s: State, sp: Spec) {
    && PhaseInv(l, s, sp)
    && CacheInv(s)
    && PinInv(s)
    && ScratchInv(l, s)
    && StrayInv(l, s)
    && DataInv(l, s, sp)
  }

  // ---------------------------------------------------------------- every step keeps the invariant

  lemma PinnedIsCached(s: State, b: nat)
    requires PinInv(s) && s.Pinned(b)
    ensures Cached(s, b)
  {
  }

  /** The cache part of the invariant when one buffer changes and keeps its block. */
  lemma CacheKept(s: State, t: State, i: nat)
    requires CacheInv(s) && PinInv(s)
    requires |t.bufs| == |s.bufs| && i < |s.bufs| && |t.disk| == |s.disk|
    requires forall j | 0 <= j < |s.bufs| && j != i :: t.bufs[j] == s.bufs[j]
    requires t.bufs[i].id == s.bufs[i].id && (s.bufs[i].valid ==> t.bufs[i].valid)
    requires BufInv(t, t.bufs[i])
    requires forall b: nat | s.bufs[i].id != Some(b) :: t.Pinned(b) == s.Pinned(b)
    requires forall b: nat :: t.Pinned(b) ==> s.Pinned(b) || Cached(t, b)
    ensures CacheInv(t) && PinInv(t)
  {
    forall j | 0 <= j < |t.bufs| ensures BufInv(t, t.bufs[j]) {
      if j != i {
        assert BufInv(s, s.bufs[j]);
      }
    }
    forall k | t.FirstPin() <= k < |t.lh| ensures Cached(t, t.lh[k]) {
      var b := t.lh[k];
      assert t.Pinned(b);
      if s.Pinned(b) {
        PinnedIsCached(s, b);
        var j :| 0 <= j < |s.bufs| && s.bufs[j].id == Some(b) && s.bufs[j].valid;
        assert t.bufs[j].id == Some(b) && t.bufs[j].valid;
      }
    }
  }

  lemma SamePins(s: State, t: State)
    requires s.FirstPin() == t.FirstPin() && s.lh == t.lh
    ensures forall b :: t.Pinned(b) == s.Pinned(b)
  {
  }

  lemma SameCache(s: State, t: State)
    requires CacheInv(s) && PinInv(s) && t.bufs == s.bufs && |t.disk| == |s.disk|
    requires forall b: nat :: t.Pinned(b) == s.Pinned(b)
    ensures CacheInv(t) && PinInv(t)
  {
    forall j | 0 <= j < |t.bufs| ensures BufInv(t, t.bufs[j]) {
      assert BufInv(s, s.bufs[j]);
    }
    forall k | t.FirstPin() <= k < |t.lh| ensures Cached(t, t.lh[k]) {
      assert t.Pinned(t.lh[k]);
      PinnedIsCached(s, t.lh[k]);
    }
  }

  lemma ScratchOf(l: Layout, s: State, i: nat)
    requires ScratchInv(l, s) && i < |s.bufs|
    ensures s.bufs[i].scratch ==> ScratchHeld(l, s, s.bufs[i])
  {
  }

  lemma StrayOf(l: Layout, s: State, i: nat)
    requires StrayInv(l, s) && i < |s.bufs|
    ensures s.bufs[i].stray ==> StrayAside(l, s, s.bufs[i])
  {
  }

  /** The scratch part of the invariant when one buffer changes within a phase. */
  lemma ScratchSame(l: Layout, s: State, t: State, i: nat)
    requires ScratchInv(l, s)
    requires |t.bufs| == |s.bufs| && i < |s.bufs|
    requires forall j | 0 <= j < |s.bufs| && j != i :: t.bufs[j] == s.bufs[j]
    requires t.bufs[i].scratch ==> ScratchHeld(l, t, t.bufs[i])
    requires t.phase == s.phase && t.ops == s.ops && (t.phase == Idle || t.lh == s.lh)
    ensures ScratchInv(l, t)
  {
    forall j | 0 <= j < |t.bufs| && t.bufs[j].scratch ensures ScratchHeld(l, t, t.bufs[j]) {
      if j != i {
        assert ScratchHeld(l, s, s.bufs[j]);
      }
    }
  }

  /** No buffer is scratch after the one that may be, the target, is written. */
  lemma ScratchWritten(l: Layout, s: State, t: State, i: nat, b: nat)
    requires CacheInv(s) && ScratchInv(l, s) && s.phase != Idle && s.Target(l) == Some(b)
    requires |t.bufs| == |s.bufs| && i < |s.bufs| && s.bufs[i].id == Some(b)
    requires forall j | 0 <= j < |s.bufs| && j != i :: t.bufs[j] == s.bufs[j]
    requires !t.bufs[i].scratch
    ensures ScratchInv(l, t)
  {
    forall j | 0 <= j < |t.bufs| && j != i ensures !t.bufs[j].scratch {
      ScratchOf(l, s, j);
    }
  }

  /** The stray part of the invariant when one buffer changes. */
  lemma StrayKept(l: Layout, s: State, t: State, i: nat)
    requires StrayInv(l, s) && CacheInv(s) && (t.Recovering() ==> s.Recovering())
    requires |t.bufs| == |s.bufs| && i < |s.bufs|
    requires forall j | 0 <= j < |s.bufs| && j != i :: t.bufs[j] == s.bufs[j]
    requires t.bufs[i].stray ==> StrayAside(l, t, t.bufs[i])
    requires forall b: nat | s.bufs[i].id != Some(b) :: t.Pinned(b) ==> s.Pinned(b)
    ensures StrayInv(l, t)
  {
    forall j | 0 <= j < |t.bufs| && t.bufs[j].stray ensures StrayAside(l, t, t.bufs[j]) {
      if j != i {
        assert StrayAside(l, s, s.bufs[j]);
      }
    }
  }

  /** The stray part of the invariant when no buffer changes. */
  lemma StraySame(l: Layout, s: State, t: State)
    requires StrayInv(l, s) && t.Recovering() == s.Recovering() && t.bufs == s.bufs
    requires forall b: nat :: t.Pinned(b) ==> s.Pinned(b)
    ensures StrayInv(l, t)
  {
    forall j | 0 <= j < |t.bufs| && t.bufs[j].stray ensures StrayAside(l, t, t.bufs[j]) {
      assert StrayAside(l, s, s.bufs[j]);
    }
  }

  /** One buffer changes its bookkeeping but not its contents. */
  lemma BufUpdate(l: Layout, s: State, sp: Spec, i: nat, b: Buf)
    requires Inv(l, s, sp) && i < |s.bufs| && BufInv(s, b)
    requires b.id == s.bufs[i].id && b.valid == s.bufs[i].valid && b.data == s.bufs[i].data
    requires b.scratch == s.bufs[i].scratch && (b.scratch ==> b.holder == s.bufs[i].holder)
    requires b.stray == s.bufs[i].stray
    ensures Inv(l, s.(bufs := s.bufs[i := b]), sp)
  {
    hide CacheInv, PinInv, ScratchInv, StrayInv, DataInv, PhaseInv;
    var t := s.(bufs := s.bufs[i := b]);
    SamePins(s, t);
    CacheKept(s, t, i);
    ScratchOf(l, s, i);
    ScratchSame(l, s, t, i);
    StrayOf(l, s, i);
    StrayKept(l, s, t, i);
    PhaseSame(l, s, sp, t);
    DataSame(l, s, sp, t, i);
  }

  lemma DataSame(l: Layout, s: State, sp: Spec, t: State, i: nat)
    requires DataInv(l, s, sp) && i < |s.bufs| && t == s.(bufs := t.bufs) && |t.bufs| == |s.bufs|
    requires forall j | 0 <= j < |s.bufs| && j != i :: t.bufs[j] == s.bufs[j]
    requires t.bufs[i].Settled() ==> s.bufs[i].Settled() && t.bufs[i].id == s.bufs[i].id && t.bufs[i].data == s.bufs[i].data
    ensures DataInv(l, t, sp)
  {
    SamePins(s, t);
  }

  lemma PhaseSame(l: Layout, s: State, sp: Spec, t: State)
    requires PhaseInv(l, s, sp) && t == s.(bufs := t.bufs)
    ensures PhaseInv(l, t, sp)
  {
  }

  /** A recycled buffer was not pinned, and nothing pinned is lost by it. */
  lemma GetMissKeeps(l: Layout, s: State, sp: Spec, p: nat, i: nat, b: nat, t: State)
    requires Inv(l, s, sp) && CacheStep(s, GetMiss(p, i, b), t)
    ensures Inv(l, t, sp)
  {
    PhaseSame(l, s, sp, t);
    hide PhaseInv;
    SamePins(s, t);
    assert BufInv(s, s.bufs[i]);
    assert !s.Pinned(b) by {
      if s.Pinned(b) {
        PinnedIsCached(s, b);
      }
    }
    forall j | 0 <= j < |t.bufs| ensures BufInv(t, t.bufs[j]) {
      assert BufInv(s, s.bufs[j]);
    }
    GetMissPins(s, p, i, b, t);
    StrayKept(l, s, t, i);
    ScratchOf(l, s, i);
    ScratchSame(l, s, t, i);
  }

  lemma GetMissPins(s: State, p: nat, i: nat, b: nat, t: State)
    requires PinInv(s) && CacheStep(s, GetMiss(p, i, b), t) && BufInv(s, s.bufs[i])
    ensures PinInv(t)
  {
    forall k | t.FirstPin() <= k < |t.lh| ensures Cached(t, t.lh[k]) {
      assert Cached(s, s.lh[k]);
      assert s.Pinned(s.lh[k]);
      var j :| 0 <= j < |s.bufs| && s.bufs[j].id == Some(s.lh[k]) && s.bufs[j].valid;
      assert t.bufs[j] == s.bufs[j];
    }
  }

  lemma CacheStepKeeps(l: Layout, s: State, sp: Spec, a: Action, t: State)
    requires Inv(l, s, sp) && CacheStep(s, a, t)
    ensures Inv(l, t, sp)
  {
    if a.GetMiss? {
      GetMissKeeps(l, s, sp, a.p, a.i, a.b, t);
    } else {
      assert BufInv(s, s.bufs[a.i]);
      ScratchOf(l, s, a.i);
      BufUpdate(l, s, sp, a.i, t.bufs[a.i]);
    }
  }

  lemma FillKeeps(l: Layout, s: State, sp: Spec, p: nat, i: nat, t: State)
    requires Inv(l, s, sp) && DataStep(l, s, Fill(p, i), t)
    ensures Inv(l, t, sp)
  {
    var b := s.bufs[i].id.value;
    SamePins(s, t);
    assert BufInv(s, s.bufs[i]);
    CacheKept(s, t, i);
    ScratchOf(l, s, i);
    ScratchSame(l, s, t, i);
    StrayOf(l, s, i);
    StrayKept(l, s, t, i);
    if s.Pinned(b) {
      PinnedIsCached(s, b);
      assert false;
    }
  }

  lemma ModifyKeeps(l: Layout, s: State, sp: Spec, p: nat, i: nat, data: Block, t: State)
    requires Inv(l, s, sp) && DataStep(l, s, Modify(p, i, data), t)
    ensures Inv(l, t, sp)
  {
    hide PhaseInv, CacheInv, PinInv, ScratchInv;
    PhaseSame(l, s, sp, t);
    SamePins(s, t);
    BufOf(s, i);
    CacheKept(s, t, i);
    ScratchSame(l, s, t, i);
    StrayOf(l, s, i);
    StrayKept(l, s, t, i);
  }

  lemma AbandonKeeps(l: Layout, s: State, sp: Spec, p: nat, i: nat, t: State)
    requires Inv(l, s, sp) && DataStep(l, s, Abandon(p, i), t)
    ensures Inv(l, t, SpecNext(sp, s, Abandon(p, i)))
  {
    hide CacheInv, PinInv, ScratchInv, DataInv;
    SamePins(s, t);
    BufOf(s, i);
    CacheKept(s, t, i);
    ScratchSame(l, s, t, i);
    AbandonAside(l, s, p, i, t);
    StrayKept(l, s, t, i);
    AbandonData(l, s, sp, p, i, t);
  }

  lemma AbandonAside(l: Layout, s: State, p: nat, i: nat, t: State)
    requires ScratchInv(l, s) && DataStep(l, s, Abandon(p, i), t)
    ensures t.bufs[i].stray ==> StrayAside(l, t, t.bufs[i])
  {
    assert ScratchHeld(l, s, s.bufs[i]);
  }

  lemma AbandonData(l: Layout, s: State, sp: Spec, p: nat, i: nat, t: State)
    requires CacheInv(s) && ScratchInv(l, s) && DataInv(l, s, sp) && DataStep(l, s, Abandon(p, i), t)
    ensures DataInv(l, t, SpecNext(sp, s, Abandon(p, i)))
  {
    var sq := SpecNext(sp, s, Abandon(p, i));
    assert ScratchHeld(l, s, s.bufs[i]);
    SamePins(s, t);
    forall j | 0 <= j < |t.bufs| && t.bufs[j].Settled()
      ensures t.bufs[j].id.value < |t.disk| && t.bufs[j].data == Contents(l, t, sq, t.bufs[j].id.value)
    {
      if j != i {
        assert t.bufs[j].id != s.bufs[i].id;
      }
    }
  }

  lemma LogWriteKeeps(l: Layout, s: State, sp: Spec, p: nat, i: nat, t: State)
    requires Inv(l, s, sp) && DataStep(l, s, LogWrite(p, i), t)
    ensures Inv(l, t, SpecNext(sp, s, LogWrite(p, i)))
  {
    hide CacheInv, PinInv, ScratchInv, StrayInv, DataInv;
    var b := s.bufs[i].id.value;
    LogWritePins(l, s, p, i, t);
    BufOf(s, i);
    assert t.bufs[i].id == Some(b) && t.bufs[i].valid;
    CacheKept(s, t, i);
    ScratchSame(l, s, t, i);
    StrayOf(l, s, i);
    StrayKept(l, s, t, i);
    LogWriteData(l, s, sp, p, i, t);
  }

  lemma LogWriteData(l: Layout, s: State, sp: Spec, p: nat, i: nat, t: State)
    requires CacheInv(s) && DataInv(l, s, sp) && DataStep(l, s, LogWrite(p, i), t)
    requires forall c: nat :: t.Pinned(c) <==> s.Pinned(c) || c == s.bufs[i].id.value
    ensures DataInv(l, t, SpecNext(sp, s, LogWrite(p, i)))
  {
    var sq := SpecNext(sp, s, LogWrite(p, i));
    forall j | 0 <= j < |t.bufs| && t.bufs[j].Settled()
      ensures t.bufs[j].id.value < |t.disk| && t.bufs[j].data == Contents(l, t, sq, t.bufs[j].id.value)
    {
      if j != i {
        assert t.bufs[j].id != s.bufs[i].id;
      }
    }
  }

  lemma LogWritePins(l: Layout, s: State, p: nat, i: nat, t: State)
    requires DataStep(l, s, LogWrite(p, i), t)
    ensures forall c :: t.Pinned(c) <==> s.Pinned(c) || c == s.bufs[i].id.value
    ensures s.Pinned(s.bufs[i].id.value) <==> s.bufs[i].id.value in s.lh
  {
    var b := s.bufs[i].id.value;
    forall c ensures t.Pinned(c) <==> s.Pinned(c) || c == b {
      if s.Pinned(c) {
        var k :| 0 <= k < |s.lh| && s.lh[k] == c;
        assert t.lh[k] == c;
      }
      if c == b {
        if b in s.lh {
          var k :| 0 <= k < |s.lh| && s.lh[k] == b;
          assert t.lh[k] == b;
        } else {
          assert t.lh[|s.lh|] == b;
        }
      }
    }
  }

  lemma OpStepKeeps(l: Layout, s: State, sp: Spec, a: Action, t: State)
    requires Inv(l, s, sp) && DataStep(l, s, a, t) && (a.BeginOp? || a.EndOp?)
    ensures Inv(l, t, sp)
  {
    hide CacheInv, PinInv, ScratchInv;
    SamePins(s, t);
    SameCache(s, t);
    StraySame(l, s, t);
    OpScratch(l, s, a, t);
  }

  /** An operation ends with nothing left to log, so the last one out leaves the
      whole cache logged. */
  lemma OpScratch(l: Layout, s: State, a: Action, t: State)
    requires ScratchInv(l, s) && DataStep(l, s, a, t) && (a.BeginOp? || a.EndOp?)
    ensures ScratchInv(l, t)
  {
    forall j | 0 <= j < |t.bufs| && t.bufs[j].scratch ensures ScratchHeld(l, t, t.bufs[j]) {
      assert ScratchHeld(l, s, s.bufs[j]);
    }
  }

  // ---------------------------------------------------------------- commit

  lemma BufOf(s: State, i: nat)
    requires CacheInv(s) && i < |s.bufs|
    ensures BufInv(s, s.bufs[i]) && (s.bufs[i].id.Some? ==> s.bufs[i].id.value < |s.disk|)
  {
  }

  /** While the log commits or recovers, only the block about to be written can
      be half-changed. */
  lemma CommitSeesLogged(l: Layout, s: State, i: nat)
    requires ScratchInv(l, s) && s.phase != Idle && i < |s.bufs| && s.Target(l) != s.bufs[i].id
    ensures !s.bufs[i].scratch
  {
    ScratchOf(l, s, i);
  }

  /** A block in the log, or pinned by it, or read in recovery, is not stray. */
  lemma NotStray(l: Layout, s: State, i: nat, b: nat)
    requires StrayInv(l, s) && i < |s.bufs| && s.bufs[i].id == Some(b)
    requires s.Recovering() || l.InLog(b) || s.Pinned(b)
    ensures !s.bufs[i].stray
  {
    StrayOf(l, s, i);
  }

  /** What a held buffer contains. */
  lemma HeldData(l: Layout, s: State, sp: Spec, p: nat, i: nat, b: nat)
    requires DataInv(l, s, sp) && s.Holds(p, i, b) && s.bufs[i].Settled()
    ensures b < |s.disk| == |sp.current| && s.bufs[i].data == Contents(l, s, sp, b)
  {
  }

  /** Writing block `b` and its buffer with the same contents keeps buffers and
      disk in agreement, if that is what the block should now contain. */
  lemma DataKept(l: Layout, s: State, sp: Spec, t: State, i: nat, b: nat, data: Block)
    requires CacheInv(s) && DataInv(l, s, sp)
    requires i < |s.bufs| && s.bufs[i].id == Some(b) && b < |s.disk|
    requires t.disk == s.disk[b := data] && t.Recovering() == s.Recovering()
    requires |t.bufs| == |s.bufs|
    requires forall j | 0 <= j < |s.bufs| && j != i :: t.bufs[j] == s.bufs[j]
    requires t.bufs[i].id == Some(b) && t.bufs[i].data == data
    requires s.Recovering() || l.InLog(b) || data == sp.current[b]
    requires forall c: nat | c != b :: s.Pinned(c) ==> t.Pinned(c)
    requires !s.Recovering() && !l.InLog(b) ==> data == sp.current[b]
    ensures DataInv(l, t, sp)
  {
    forall j | 0 <= j < |t.bufs| && t.bufs[j].Settled()
      ensures t.bufs[j].id.value < |t.disk| && t.bufs[j].data == Contents(l, t, sp, t.bufs[j].id.value)
    {
      if j != i {
        assert t.bufs[j].id != s.bufs[i].id;
      }
    }
    if !t.Recovering() {
      forall c | 0 <= c < |t.disk| && !l.InLog(c) && !t.Pinned(c) ensures t.disk[c] == sp.current[c] {
      }
    }
  }

  lemma CopyBlockKeeps(l: Layout, s: State, sp: Spec, p: nat, to: nat, from: nat, t: State)
    requires Inv(l, s, sp) && CommitStep(l, s, CopyBlock(p, to, from), t)
    ensures Inv(l, t, sp)
  {
    hide CacheInv, PinInv, DataInv;
    var n := s.phase.tail;
    SamePins(s, t);
    CommitSeesLogged(l, s, from);
    assert s.Pinned(s.lh[n]);
    NotStray(l, s, from, s.lh[n]);
    HeldData(l, s, sp, p, from, s.lh[n]);
    BufOf(s, to);
    ScratchWritten(l, s, t, to, l.start + n + 1);
    NotStray(l, s, to, l.start + n + 1);
    StrayKept(l, s, t, to);
    CacheKept(s, t, to);
    DataKept(l, s, sp, t, to, l.start + n + 1, s.bufs[from].data);
    CopiesGrow(l, s, sp, t);
  }

  lemma CopiesGrow(l: Layout, s: State, sp: Spec, t: State)
    requires PhaseInv(l, s, sp) && s.phase.Copying? && s.phase.tail < |s.lh|
    requires t.phase == Copying(s.phase.tail + 1) && t.lh == s.lh && t.ops == s.ops
    requires t.disk == s.disk[l.start + s.phase.tail + 1 := sp.current[s.lh[s.phase.tail]]]
    ensures PhaseInv(l, t, sp)
  {
    forall k | 0 <= k < t.phase.tail ensures LogCopy(l, t.disk, k) == sp.current[t.lh[k]] {
      if k < s.phase.tail {
        assert LogCopy(l, s.disk, k) == sp.current[s.lh[k]];
      }
    }
  }

  lemma WriteHeadKeeps(l: Layout, s: State, sp: Spec, p: nat, i: nat, t: State)
    requires Inv(l, s, sp) && CommitStep(l, s, WriteHead(p, i), t)
    ensures Inv(l, t, SpecNext(sp, s, WriteHead(p, i)))
  {
    hide CacheInv, PinInv, Names;
    SamePins(s, t);
    BufOf(s, i);
    CacheKept(s, t, i);
    ScratchWritten(l, s, t, i, l.start);
    NotStray(l, s, i, l.start);
    StrayKept(l, s, t, i);
    DataKept(l, s, sp, t, i, l.start, t.bufs[i].data);
    HeaderWritten(l, s, sp, t, s.bufs[i].data);
  }

  lemma HeaderWritten(l: Layout, s: State, sp: Spec, t: State, h: Block)
    requires PhaseInv(l, s, sp) && s.phase == Copying(|s.lh|)
    requires t == s.(disk := t.disk, bufs := t.bufs, phase := Installing(0))
    requires Names(h, s.lh) && t.disk == s.disk[l.start := h]
    ensures PhaseInv(l, t, sp.(durable := sp.current))
  {
    forall k | 0 <= k < |t.lh| ensures LogCopy(l, t.disk, k) == sp.current[t.lh[k]] {
      assert LogCopy(l, s.disk, k) == sp.current[s.lh[k]];
    }
  }

  lemma InstallKeeps(l: Layout, s: State, sp: Spec, p: nat, lb: nat, db: nat, t: State)
    requires Inv(l, s, sp) && CommitStep(l, s, Install(p, lb, db), t)
    ensures Inv(l, t, sp)
  {
    hide CacheInv, PinInv, DataInv, ScratchInv, StrayInv;
    var n := s.phase.tail;
    var b := s.lh[n];
    CommitSeesLogged(l, s, lb);
    NotStray(l, s, lb, l.start + n + 1);
    HeldData(l, s, sp, p, lb, l.start + n + 1);
    assert LogCopy(l, s.disk, n) == sp.current[b];
    InstallPins(l, s, t);
    BufOf(s, db);
    CacheKept(s, t, db);
    ScratchWritten(l, s, t, db, b);
    NotStray(l, s, db, b);
    StrayKept(l, s, t, db);
    DataKept(l, s, sp, t, db, b, sp.current[b]);
    HomeInstalled(l, s, sp, t);
  }

  /** Installing the next block unpins that block only. */
  lemma InstallPins(l: Layout, s: State, t: State)
    requires s.phase.Installing? && s.phase.tail < |s.lh| && Distinct(s.lh)
    requires t.lh == s.lh && t.phase == Installing(s.phase.tail + 1)
    ensures s.Pinned(s.lh[s.phase.tail]) && !t.Pinned(s.lh[s.phase.tail])
    ensures forall c: nat | c != s.lh[s.phase.tail] :: t.Pinned(c) == s.Pinned(c)
  {
    forall c: nat | c != s.lh[s.phase.tail] ensures t.Pinned(c) == s.Pinned(c) {
      if s.Pinned(c) {
        var k :| s.phase.tail <= k < |s.lh| && s.lh[k] == c;
        assert t.FirstPin() <= k < |t.lh| && t.lh[k] == c;
      }
    }
  }

  lemma HomeInstalled(l: Layout, s: State, sp: Spec, t: State)
    requires PhaseInv(l, s, sp) && s.phase.Installing? && s.phase.tail < |s.lh|
    requires t == s.(disk := t.disk, bufs := t.bufs, phase := Installing(s.phase.tail + 1))
    requires t.disk == s.disk[s.lh[s.phase.tail] := sp.current[s.lh[s.phase.tail]]]
    ensures PhaseInv(l, t, sp)
  {
    forall k | 0 <= k < |t.lh| ensures LogCopy(l, t.disk, k) == sp.current[t.lh[k]] {
      assert LogCopy(l, s.disk, k) == sp.current[s.lh[k]];
    }
  }

  lemma ClearHeadKeeps(l: Layout, s: State, sp: Spec, p: nat, i: nat, t: State)
    requires Inv(l, s, sp) && CommitStep(l, s, ClearHead(p, i), t)
    ensures Inv(l, t, sp)
  {
    assert BufInv(s, s.bufs[i]);
    CacheKept(s, t, i);
    ScratchWritten(l, s, t, i, l.start);
    NotStray(l, s, i, l.start);
    StrayKept(l, s, t, i);
    DataKept(l, s, sp, t, i, l.start, t.bufs[i].data);
    assert SameHome(l, t.disk, sp.durable);
  }

  lemma EndCommitKeeps(l: Layout, s: State, sp: Spec, t: State)
    requires Inv(l, s, sp) && CommitStep(l, s, EndCommit, t)
    ensures Inv(l, t, sp)
  {
    SamePins(s, t);
    SameCache(s, t);
    NoScratch(l, s, t);
    StraySame(l, s, t);
  }

  lemma NoScratch(l: Layout, s: State, t: State)
    requires ScratchInv(l, s) && s.phase != Idle && s.Target(l).None? && t.bufs == s.bufs
    ensures ScratchInv(l, t)
  {
    forall j | 0 <= j < |t.bufs| ensures !t.bufs[j].scratch {
      ScratchOf(l, s, j);
    }
  }

  // ---------------------------------------------------------------- crash and recovery

  lemma DiskRecoverable(l: Layout, s: State, sp: Spec)
    requires PhaseInv(l, s, sp)
    ensures Recoverable(l, s.disk)
    ensures s.phase.Idle? || s.phase.Copying? || s.phase.Cleared? ==> HeaderBlocks(s.disk[l.start]) == []
  {
    if s.phase.Idle? || s.phase.Copying? || s.phase.Cleared? {
      assert HeaderBlocks(s.disk[l.start]) == [];
    }
  }

  /** In every phase the disk alone determines the durable contents. */
  lemma RecoveryGivesDurable(l: Layout, s: State, sp: Spec, b: nat)
    requires Inv(l, s, sp) && b < |s.disk| && !l.InLog(b)
    ensures Recoverable(l, s.disk) && Recovered(l, s.disk)[b] == sp.durable[b]
  {
    hide CacheInv, PinInv, Recovered;
    DiskRecoverable(l, s, sp);
    if s.phase.Installing? || s.phase.Redoing? {
      if k :| 0 <= k < |s.lh| && s.lh[k] == b {
        assert LogCopy(l, s.disk, k) == sp.current[b];
        RecoveredLogged(l, s.disk, k);
      } else {
        RecoveredOther(l, s.disk, b);
        assert !s.Pinned(b) && !LaterIn(s.lh, s.phase.tail, b);
      }
    } else if !s.phase.Booting? {
      RecoveredOther(l, s.disk, b);
    }
  }

  lemma CrashKeeps(l: Layout, s: State, sp: Spec, t: State)
    requires Inv(l, s, sp) && RecoveryStep(l, s, Crash, t)
    ensures Inv(l, t, SpecNext(sp, s, Crash))
  {
    DiskRecoverable(l, s, sp);
    forall b | 0 <= b < |s.disk| && !l.InLog(b) ensures Recovered(l, t.disk)[b] == sp.durable[b] {
      RecoveryGivesDurable(l, s, sp, b);
    }
  }

  lemma HeadRead(l: Layout, s: State, sp: Spec, t: State)
    requires PhaseInv(l, s, sp) && s.phase == Booting
    requires t == s.(lh := HeaderBlocks(s.disk[l.start]), phase := Redoing(0))
    ensures PhaseInv(l, t, sp)
  {
    var lh := t.lh;
    forall k | 0 <= k < |lh| ensures LogCopy(l, t.disk, k) == sp.current[lh[k]] {
      RecoveredLogged(l, s.disk, k);
    }
    forall b | 0 <= b < |s.disk| && !l.InLog(b) && !LaterIn(lh, 0, b) ensures s.disk[b] == sp.durable[b] {
      RecoveredOther(l, s.disk, b);
    }
  }

  lemma ReadHeadKeeps(l: Layout, s: State, sp: Spec, p: nat, i: nat, t: State)
    requires Inv(l, s, sp) && RecoveryStep(l, s, ReadHead(p, i), t)
    ensures Inv(l, t, sp)
  {
    CommitSeesLogged(l, s, i);
    NotStray(l, s, i, l.start);
    HeldData(l, s, sp, p, i, l.start);
    HeadRead(l, s, sp, t);
    SameCache(s, t);
    NoScratch(l, s, t);
    StraySame(l, s, t);
  }

  lemma BlockRedone(l: Layout, s: State, sp: Spec, t: State)
    requires PhaseInv(l, s, sp) && s.phase.Redoing? && s.phase.tail < |s.lh|
    requires t == s.(disk := t.disk, bufs := t.bufs, phase := Redoing(s.phase.tail + 1))
    requires t.disk == s.disk[s.lh[s.phase.tail] := sp.current[s.lh[s.phase.tail]]]
    ensures PhaseInv(l, t, sp)
  {
    var n := s.phase.tail;
    forall k | 0 <= k < |t.lh| ensures LogCopy(l, t.disk, k) == sp.current[t.lh[k]] {
      assert LogCopy(l, s.disk, k) == sp.current[s.lh[k]];
    }
    forall b | 0 <= b < |t.disk| && !l.InLog(b) && !LaterIn(t.lh, n + 1, b) ensures t.disk[b] == sp.durable[b] {
      if b != s.lh[n] {
        assert !LaterIn(s.lh, n, b);
      }
    }
  }

  lemma RedoBlockKeeps(l: Layout, s: State, sp: Spec, p: nat, lb: nat, db: nat, t: State)
    requires Inv(l, s, sp) && RecoveryStep(l, s, RedoBlock(p, lb, db), t)
    ensures Inv(l, t, sp)
  {
    var n := s.phase.tail;
    CommitSeesLogged(l, s, lb);
    NotStray(l, s, lb, l.start + n + 1);
    HeldData(l, s, sp, p, lb, l.start + n + 1);
    assert LogCopy(l, s.disk, n) == sp.current[s.lh[n]];
    hide CacheInv, PinInv, DataInv;
    BufOf(s, db);
    CacheKept(s, t, db);
    ScratchWritten(l, s, t, db, s.lh[n]);
    NotStray(l, s, db, s.lh[n]);
    StrayKept(l, s, t, db);
    DataKept(l, s, sp, t, db, s.lh[n], s.bufs[lb].data);
    BlockRedone(l, s, sp, t);
  }

  lemma FinishRedoKeeps(l: Layout, s: State, sp: Spec, p: nat, i: nat, t: State)
    requires Inv(l, s, sp) && RecoveryStep(l, s, FinishRedo(p, i), t)
    ensures Inv(l, t, sp)
  {
    assert BufInv(s, s.bufs[i]);
    CacheKept(s, t, i);
    ScratchWritten(l, s, t, i, l.start);
    NotStray(l, s, i, l.start);
    StrayKept(l, s, t, i);
    forall b | 0 <= b < |t.disk| && !l.InLog(b) ensures t.disk[b] == sp.durable[b] {
      assert !LaterIn(s.lh, |s.lh|, b);
    }
  }

  // ---------------------------------------------------------------- whole runs

  lemma DataStepKeeps(l: Layout, s: State, sp: Spec, a: Action, t: State)
    requires Inv(l, s, sp) && DataStep(l, s, a, t)
    ensures Inv(l, t, SpecNext(sp, s, a))
  {
    match a
    case Fill(p, i) => FillKeeps(l, s, sp, p, i, t);
    case Modify(p, i, data) => ModifyKeeps(l, s, sp, p, i, data, t);
    case LogWrite(p, i) => LogWriteKeeps(l, s, sp, p, i, t);
    case Abandon(p, i) => AbandonKeeps(l, s, sp, p, i, t);
    case BeginOp(p) => OpStepKeeps(l, s, sp, a, t);
    case EndOp(p) => OpStepKeeps(l, s, sp, a, t);
  }

  lemma CommitStepKeeps(l: Layout, s: State, sp: Spec, a: Action, t: State)
    requires Inv(l, s, sp) && CommitStep(l, s, a, t)
    ensures Inv(l, t, SpecNext(sp, s, a))
  {
    match a
    case CopyBlock(p, to, from) => CopyBlockKeeps(l, s, sp, p, to, from, t);
    case WriteHead(p, i) => WriteHeadKeeps(l, s, sp, p, i, t);
    case Install(p, lb, db) => InstallKeeps(l, s, sp, p, lb, db, t);
    case ClearHead(p, i) => ClearHeadKeeps(l, s, sp, p, i, t);
    case EndCommit => EndCommitKeeps(l, s, sp, t);
  }

  lemma RecoveryStepKeeps(l: Layout, s: State, sp: Spec, a: Action, t: State)
    requires Inv(l, s, sp) && RecoveryStep(l, s, a, t)
    ensures Inv(l, t, SpecNext(sp, s, a))
  {
    match a
    case Crash => CrashKeeps(l, s, sp, t);
    case ReadHead(p, i) => ReadHeadKeeps(l, s, sp, p, i, t);
    case RedoBlock(p, lb, db) => RedoBlockKeeps(l, s, sp, p, lb, db, t);
    case FinishRedo(p, i) => FinishRedoKeeps(l, s, sp, p, i, t);
  }

  /** Every step of every process, of the committer, of a crash and of recovery
      keeps the invariant. */
  lemma StepKeepsInv(l: Layout, s: State, sp: Spec, a: Action, t: State)
    requires Inv(l, s, sp) && Next(l, s, a, t)
    ensures Inv(l, t, SpecNext(sp, s, a))
  {
    if CacheStep(s, a, t) {
      CacheStepKeeps(l, s, sp, a, t);
    } else if DataStep(l, s, a, t) {
      DataStepKeeps(l, s, sp, a, t);
    } else if CommitStep(l, s, a, t) {
      CommitStepKeeps(l, s, sp, a, t);
    } else {
      RecoveryStepKeeps(l, s, sp, a, t);
    }
  }

  /** A run of the machine from boot, with the specification alongside. */
  datatype Run = Boot(last: State, spec: Spec) | Then(before: Run, a: Action, last: State, spec: Spec)

  /** Boot on any disk that recovery can follow: nothing is cached, and the
      logical disk is what recovery of that disk gives. */
  predicate Init(l: Layout, s: State, sp: Spec) {
    && Recoverable(l, s.disk)
    && s == State(s.disk, seq(|s.bufs|, _ => EmptyBuf()), [], {}, Booting)
    && sp.current == sp.durable && |sp.durable| == |s.disk|
    && forall b | 0 <= b < |s.disk| && !l.InLog(b) :: Recovered(l, s.disk)[b] == sp.durable[b]
  }

  predicate IsRun(l: Layout, r: Run) {
    match r
    case Boot(s, sp) => Init(l, s, sp)
    case Then(q, a, s, sp) => IsRun(l, q) && Next(l, q.last, a, s) && sp == SpecNext(q.spec, q.last, a)
  }

  lemma {:induction false} RunInv(l: Layout, r: Run)
    requires IsRun(l, r)
    ensures Inv(l, r.last, r.spec)
  {
    match r
    case Boot(s, sp) =>
    case Then(q, a, s, sp) =>
      RunInv(l, q);
      StepKeepsInv(l, q.last, q.spec, a, s);
  }

  /** Crash safety over every run: wherever the machine stops, recovery of the
      disk it leaves behind gives exactly the durable logical disk. */
  lemma CrashSafety(l: Layout, r: Run)
    requires IsRun(l, r)
    ensures Recoverable(l, r.last.disk) && |r.spec.durable| == |r.last.disk|
    ensures SameHome(l, Recovered(l, r.last.disk), r.spec.durable)
  {
    RunInv(l, r);
    DiskRecoverable(l, r.last, r.spec);
    forall b | 0 <= b < |r.last.disk| && !l.InLog(b)
      ensures Recovered(l, r.last.disk)[b] == r.spec.durable[b]
    {
      RecoveryGivesDurable(l, r.last, r.spec, b);
    }
  }

  /** A note to `CrashSafety`: the durable disk moves only when the header is
      written, only between operations, and then becomes the current disk as a
      whole. */
  lemma DurableMovesAtCommit(l: Layout, q: Run, a: Action, s: State, sp: Spec)
    requires IsRun(l, Then(q, a, s, sp)) && sp.durable != q.spec.durable
    ensures a.WriteHead? && q.last.ops == {} && sp.durable == q.spec.current == sp.current
  {
    RunInv(l, q);
  }

  /** A held buffer that its holder has not changed has the last data logged for
      its block, in every run, unless an abandoned change is still in it. */
  lemma ReadsLatest(l: Layout, r: Run, p: nat, i: nat, b: nat)
    requires IsRun(l, r) && !r.last.Recovering() && r.last.Holds(p, i, b) && !l.InLog(b)
    requires r.last.bufs[i].Settled()
    ensures b < |r.spec.current| && r.last.bufs[i].data == r.spec.current[b]
  {
    RunInv(l, r);
    HeldData(l, r.last, r.spec, p, i, b);
  }

  predicate Abandons(r: Run) {
    match r
    case Boot(_, _) => false
    case Then(q, a, _, _) => a.Abandon? || Abandons(q)
  }

  predicate NoStray(s: State) {
    forall i | 0 <= i < |s.bufs| :: !s.bufs[i].stray
  }

  lemma StepNoStray(l: Layout, s: State, a: Action, t: State)
    requires Next(l, s, a, t) && NoStray(s) && !a.Abandon?
    ensures NoStray(t)
  {
    hide Names;
  }

  /** Only a change abandoned by a failing `writei` can be stray. */
  lemma {:induction false} StrayFromAbandon(l: Layout, r: Run)
    requires IsRun(l, r) && !Abandons(r)
    ensures NoStray(r.last)
  {
    match r
    case Boot(s, sp) =>
    case Then(q, a, s, sp) =>
      StrayFromAbandon(l, q);
      StepNoStray(l, q.last, a, s);
  }

  /** `bread` returns the last data logged for a block in every run without
      abandoned changes: when it has the lock on a valid buffer, or has just
      filled it, no change of anyone's is in it. */
  lemma BreadReturnsLatest(l: Layout, q: Run, a: Action, s: State, sp: Spec, b: nat)
    requires IsRun(l, Then(q, a, s, sp)) && (a.Lock? || a.Fill?)
    requires !s.Recovering() && s.Holds(a.p, a.i, b) && !l.InLog(b)
    ensures !Abandons(q) || !s.bufs[a.i].stray ==> b < |sp.current| && s.bufs[a.i].data == sp.current[b]
  {
    hide PhaseInv, CacheInv, PinInv, DataInv;
    RunInv(l, q);
    ScratchOf(l, q.last, a.i);
    if !Abandons(q) {
      StrayFromAbandon(l, Then(q, a, s, sp));
    }
    if !s.bufs[a.i].stray {
      ReadsLatest(l, Then(q, a, s, sp), a.p, a.i, b);
    }
  }

  lemma Extended(l: Layout, r: Run, a: Action, t: State) returns (q: Run)
    requires IsRun(l, r)
    requires CacheStep(r.last, a, t) || DataStep(l, r.last, a, t)
    ensures IsRun(l, q) && q.last == t && q.spec == SpecNext(r.spec, r.last, a)
  {
    RunInv(l, r);
    q := Then(r, a, t, SpecNext(r.spec, r.last, a));
  }

  /** An abandoned change is read: whatever an operation leaves in a block that is
      not yet in the log, any other process then finds there, though nobody
      logged it. */
  lemma AbandonedIsRead(l: Layout, r: Run, p: nat, i: nat, b: nat, data: Block, q: nat) returns (after: Run)
    requires IsRun(l, r) && r.last.phase == Idle && p in r.last.ops
    requires r.last.Holds(p, i, b) && !l.InLog(b) && b !in r.last.lh && q !in r.last.bufs[i].users
    ensures IsRun(l, after) && after.spec == r.spec && after.last.lh == r.last.lh && after.last.phase == Idle
    ensures after.last.Holds(q, i, b) && after.last.bufs[i].data == data && !after.last.bufs[i].scratch
  {
    hide IsRun, PhaseInv, CacheInv, PinInv, DataInv, ScratchInv, StrayInv, CommitStep, RecoveryStep;
    RunInv(l, r);
    var s := r.last;
    var left := s.bufs[i].(data := data, holder := None, scratch := false, stray := true);
    var got := left.(refcnt := left.refcnt + 1, users := left.users + {q});
    var s1 := s.(bufs := s.bufs[i := s.bufs[i].(data := data, scratch := true)]);
    var s2 := s.(bufs := s.bufs[i := left]);
    var s3 := s.(bufs := s.bufs[i := got]);
    var s4 := s.(bufs := s.bufs[i := got.(holder := Some(q))]);
    assert DataStep(l, s, Modify(p, i, data), s1);
    var r1 := Extended(l, r, Modify(p, i, data), s1);
    assert s2.bufs == s1.bufs[i := left];
    var r2 := Extended(l, r1, Abandon(p, i), s2);
    assert s3.bufs == s2.bufs[i := got];
    var r3 := Extended(l, r2, GetHit(q, i), s3);
    assert s4.bufs == s3.bufs[i := got.(holder := Some(q))];
    after := Extended(l, r3, Lock(q, i), s4);
  }

  /** A change that is not yet logged belongs to an operation that holds the
      buffer; while the log commits or recovers there is none, save in the block
      it is about to write. */
  lemma ScratchOnlyInOps(l: Layout, r: Run, i: nat)
    requires IsRun(l, r) && i < |r.last.bufs| && r.last.bufs[i].scratch
    ensures r.last.bufs[i].valid && r.last.bufs[i].holder.Some?
    ensures r.last.phase == Idle ==> r.last.bufs[i].holder.value in r.last.ops
    ensures r.last.phase != Idle ==> r.last.ops == {} && r.last.bufs[i].id == r.last.Target(l)
  {
    hide CacheInv, PinInv, DataInv, IsRun;
    RunInv(l, r);
    assert ScratchHeld(l, r.last, r.last.bufs[i]);
  }

  /** Buffer `i` holds the contents last logged for the entry being written. */
  predicate IsLogged(r: Run, i: nat) {
    && (r.last.phase.Copying? || r.last.phase.Installing?) && r.last.phase.tail < |r.last.lh|
    && r.last.lh[r.last.phase.tail] < |r.spec.current| && i < |r.last.bufs|
    && r.last.bufs[i].Settled() && r.last.bufs[i].data == r.spec.current[r.last.lh[r.last.phase.tail]]
  }

  /** So in every run a commit copies, and installs, whole logged contents. */
  lemma CommitCopiesLogged(l: Layout, r: Run, a: Action, t: State)
    requires IsRun(l, r) && Next(l, r.last, a, t)
    ensures a.CopyBlock? ==> IsLogged(r, a.from)
    ensures a.Install? ==> IsLogged(r, a.lb)
  {
    hide CacheInv, PinInv, DataInv, IsRun;
    RunInv(l, r);
    if a.CopyBlock? {
      CommitSeesLogged(l, r.last, a.from);
      assert r.last.Pinned(r.last.lh[r.last.phase.tail]);
      NotStray(l, r.last, a.from, r.last.lh[r.last.phase.tail]);
      HeldData(l, r.last, r.spec, a.p, a.from, r.last.lh[r.last.phase.tail]);
    } else if a.Install? {
      var n := r.last.phase.tail;
      CommitSeesLogged(l, r.last, a.lb);
      NotStray(l, r.last, a.lb, l.start + n + 1);
      HeldData(l, r.last, r.spec, a.p, a.lb, l.start + n + 1);
      assert LogCopy(l, r.last.disk, n) == r.spec.current[r.last.lh[n]];
    }
  }

  /** A logged, not yet installed block is in exactly one buffer, which carries
      exactly one pin, so a miss can never recycle it. */
  lemma PinnedOnce(l: Layout, r: Run, b: nat)
    requires IsRun(l, r) && r.last.Pinned(b)
    ensures exists i :: 0 <= i < |r.last.bufs| && r.last.bufs[i].id == Some(b) && r.last.bufs[i].valid
              && r.last.bufs[i].refcnt == |r.last.bufs[i].users| + 1
              && (forall j | 0 <= j < |r.last.bufs| && j != i :: r.last.bufs[j].id != Some(b))
              && (forall p, c, t :: !CacheStep(r.last, GetMiss(p, i, c), t))
  {
    hide PhaseInv, DataInv, IsRun;
    RunInv(l, r);
    PinnedIsCached(r.last, b);
    var i :| 0 <= i < |r.last.bufs| && r.last.bufs[i].id == Some(b) && r.last.bufs[i].valid;
    assert BufInv(r.last, r.last.bufs[i]);
  }

  /** Every other buffer with settled contents agrees with the disk. */
  lemma UnpinnedIsClean(l: Layout, r: Run, i: nat)
    requires IsRun(l, r) && i < |r.last.bufs| && r.last.bufs[i].Settled()
    requires !r.last.Pinned(r.last.bufs[i].id.value)
    ensures r.last.bufs[i].id.value < |r.last.disk|
    ensures r.last.bufs[i].data == r.last.disk[r.last.bufs[i].id.value]
  {
    RunInv(l, r);
  }

  /** Recycling a buffer loses nothing in a run without abandoned changes: one
      that nobody has locked agrees with the disk unless it is pinned, and so one
      without references agrees with the disk. */
  lemma UnlockedIsClean(l: Layout, r: Run, i: nat)
    requires IsRun(l, r) && i < |r.last.bufs| && r.last.bufs[i].valid && r.last.bufs[i].id.Some?
    requires r.last.bufs[i].holder.None? && !Abandons(r)
    ensures r.last.bufs[i].id.value < |r.last.disk|
    ensures r.last.bufs[i].data == r.last.disk[r.last.bufs[i].id.value] || r.last.Pinned(r.last.bufs[i].id.value)
    ensures r.last.bufs[i].refcnt == 0 ==> r.last.bufs[i].data == r.last.disk[r.last.bufs[i].id.value]
  {
    hide PhaseInv, PinInv, DataInv, IsRun;
    RunInv(l, r);
    StrayFromAbandon(l, r);
    assert BufInv(r.last, r.last.bufs[i]);
    ScratchOf(l, r.last, i);
    if !r.last.Pinned(r.last.bufs[i].id.value) {
      UnpinnedIsClean(l, r, i);
    }
  }
}
