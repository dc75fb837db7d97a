/** Whether a commit can always go on (kernel/log.c over kernel/bio.c): every
    logged block keeps a buffer pinned, and `commit` needs buffers of its own. */
module CommitProgress {
  import opened Bytes
  import opened Log
  import opened Options
  import opened Params
  import opened Sequences
  import opened Storage
  import Admission

  /** Steps of the cache, of `commit` and of recovery, but no operation's. */
  predicate Plain(a: Action) {
    !a.Crash? && !a.LogWrite? && !a.Abandon? && !a.BeginOp? && !a.EndOp?
  }

  /** `q` is `r` and then plain steps. */
  predicate Extends(r: Run, q: Run) {
    q == r || (q.Then? && Plain(q.a) && Extends(r, q.before))
  }

  lemma {:induction false} ExtendsTrans(a: Run, b: Run, c: Run)
    requires Extends(a, b) && Extends(b, c)
    ensures Extends(a, c)
  {
    if c != b {
      ExtendsTrans(a, b, c.before);
    }
  }

  lemma Stepped(l: Layout, r: Run, a: Action, t: State) returns (q: Run)
    requires IsRun(l, r) && Plain(a) && Next(l, r.last, a, t)
    ensures IsRun(l, q) && Extends(r, q) && q.last == t && q.spec == SpecNext(r.spec, r.last, a)
  {
    hide Next, SpecNext;
    q := Then(r, a, t, SpecNext(r.spec, r.last, a));
    assert Extends(r, r);
  }

  /** A step of the cache or of `bread`. */
  lemma Cached1(l: Layout, r: Run, a: Action, t: State) returns (q: Run)
    requires IsRun(l, r) && Plain(a) && (CacheStep(r.last, a, t) || DataStep(l, r.last, a, t))
    ensures IsRun(l, q) && Extends(r, q) && q.last == t && q.spec == r.spec
  {
    hide CacheStep, DataStep, CommitStep, RecoveryStep, IsRun;
    LogOk(l, r);
    SpecSame(l, r.last, r.spec, a, t);
    q := Stepped(l, r, a, t);
  }

  lemma SpecSame(l: Layout, s: State, sp: Spec, a: Action, t: State)
    requires Plain(a) && (CacheStep(s, a, t) || DataStep(l, s, a, t))
    ensures SpecNext(sp, s, a) == sp
  {
  }

  lemma LogOk(l: Layout, r: Run)
    requires IsRun(l, r)
    ensures l.Fits(r.last.disk) && Loggable(l, r.last.disk, r.last.lh) && |r.spec.current| == |r.last.disk|
  {
    hide CacheInv, PinInv, DataInv, ScratchInv, StrayInv, IsRun;
    RunInv(l, r);
  }

  // ---------------------------------------------------------------- giving buffers back

  predicate OnlyBufs(s: State, t: State) {
    t == s.(bufs := t.bufs) && |t.bufs| == |s.bufs|
  }

  function Released(b: Buf): Buf {
    b.(users := {}, holder := None, refcnt := if b.refcnt < |b.users| then 0 else b.refcnt - |b.users|)
  }

  lemma BufOk(l: Layout, r: Run, i: nat)
    requires IsRun(l, r) && i < |r.last.bufs|
    ensures BufInv(r.last, r.last.bufs[i]) && (r.last.bufs[i].scratch ==> ScratchHeld(l, r.last, r.last.bufs[i]))
  {
    hide PhaseInv, PinInv, DataInv, StrayInv, IsRun, BufInv, ScratchHeld;
    RunInv(l, r);
  }

  /** The holder unlocks a buffer, or somebody lets go of it. */
  lemma LetGo(l: Layout, r: Run, i: nat) returns (q: Run, c: Buf)
    requires IsRun(l, r) && i < |r.last.bufs| && !r.last.bufs[i].scratch && r.last.bufs[i].users != {}
    ensures IsRun(l, q) && Extends(r, q) && q.spec == r.spec && q.last == r.last.(bufs := r.last.bufs[i := c])
    ensures !c.scratch && Released(c) == Released(r.last.bufs[i]) && |c.users| <= |r.last.bufs[i].users|
    ensures |c.users| < |r.last.bufs[i].users| || (r.last.bufs[i].holder.Some? && c.holder.None?)
  {
    hide IsRun, Extends;
    BufOk(l, r, i);
    var b := r.last.bufs[i];
    var a;
    if b.holder.Some? {
      a, c := Unlock(b.holder.value, i), b.(holder := None);
    } else {
      var p :| p in b.users;
      a, c := Put(p, i), b.(refcnt := b.refcnt - 1, users := b.users - {p});
    }
    var t := r.last.(bufs := r.last.bufs[i := c]);
    assert CacheStep(r.last, a, t);
    q := Cached1(l, r, a, t);
  }

  lemma NothingToRelease(l: Layout, r: Run, i: nat)
    requires IsRun(l, r) && i < |r.last.bufs| && r.last.bufs[i].users == {}
    ensures Released(r.last.bufs[i]) == r.last.bufs[i]
  {
    BufOk(l, r, i);
  }

  /** Everybody lets go of a buffer. */
  lemma {:induction false} Release(l: Layout, r: Run, i: nat) returns (q: Run)
    requires IsRun(l, r) && i < |r.last.bufs| && !r.last.bufs[i].scratch
    ensures IsRun(l, q) && Extends(r, q) && q.spec == r.spec
    ensures q.last == r.last.(bufs := r.last.bufs[i := Released(r.last.bufs[i])])
    decreases |r.last.bufs[i].users|, r.last.bufs[i].holder.Some?
  {
    hide IsRun, Extends, Released;
    var s := r.last;
    if s.bufs[i].users == {} {
      NothingToRelease(l, r, i);
      ExtendsSelf(r);
      q := r;
      assert s.bufs[i := Released(s.bufs[i])] == s.bufs;
    } else {
      var m, c := LetGo(l, r, i);
      q := Release(l, m, i);
      assert m.last.bufs[i := Released(c)] == s.bufs[i := Released(s.bufs[i])];
      ExtendsTrans(r, m, q);
    }
  }

  lemma ExtendsSelf(r: Run)
    ensures Extends(r, r)
  {
  }

  /** The same for the first `n` buffers, but for one that is being changed. */
  lemma {:induction false} Drain(l: Layout, r: Run, n: nat) returns (q: Run)
    requires IsRun(l, r) && n <= |r.last.bufs|
    ensures IsRun(l, q) && Extends(r, q) && q.spec == r.spec && OnlyBufs(r.last, q.last)
    ensures forall j | 0 <= j < |r.last.bufs| ::
              q.last.bufs[j] == if j < n && !r.last.bufs[j].scratch then Released(r.last.bufs[j]) else r.last.bufs[j]
  {
    hide IsRun, Extends, Released;
    if n == 0 {
      q := r;
      ExtendsSelf(r);
    } else {
      var m := Drain(l, r, n - 1);
      q := m;
      if !r.last.bufs[n - 1].scratch {
        q := Release(l, m, n - 1);
        ExtendsTrans(r, m, q);
      }
    }
  }

  /** Nobody uses a buffer, except that `p` may be changing the one of block `b`. */
  predicate Quiet(s: State, p: nat, b: Option<nat>) {
    forall j | 0 <= j < |s.bufs| :: s.bufs[j].users == {} || QuietBut(s, p, b, j)
  }

  predicate QuietBut(s: State, p: nat, b: Option<nat>, j: nat)
    requires j < |s.bufs|
  {
    b.Some? && s.bufs[j].id == b && s.Holds(p, j, b.value)
  }

  /** Outside of operations everybody can let go of everything, save for the
      buffer that `commit` or recovery is about to write. */
  lemma Quieten(l: Layout, r: Run) returns (q: Run, p: nat)
    requires IsRun(l, r) && r.last.phase != Idle
    ensures IsRun(l, q) && Extends(r, q) && q.spec == r.spec && OnlyBufs(r.last, q.last)
    ensures Quiet(q.last, p, q.last.Target(l))
  {
    hide IsRun, Extends;
    q := Drain(l, r, |r.last.bufs|);
    if i :| 0 <= i < |r.last.bufs| && r.last.bufs[i].scratch {
      BufOk(l, r, i);
      p := r.last.bufs[i].holder.value;
      forall j | 0 <= j < |q.last.bufs| ensures q.last.bufs[j].users == {} || QuietBut(q.last, p, q.last.Target(l), j) {
        if r.last.bufs[j].scratch {
          BufOk(l, r, j);
          OneBuffer(l, r, i, j);
        }
      }
    } else {
      p := 0;
    }
  }

  lemma OneBuffer(l: Layout, r: Run, i: nat, j: nat)
    requires IsRun(l, r) && i < |r.last.bufs| && j < |r.last.bufs| && r.last.bufs[i].id.Some? && r.last.bufs[i].id == r.last.bufs[j].id
    ensures i == j
  {
    hide PhaseInv, PinInv, DataInv, StrayInv, ScratchInv, IsRun, BufInv;
    RunInv(l, r);
  }

  // ---------------------------------------------------------------- taking buffers

  function Pins(s: State): int {
    |s.lh| - s.FirstPin()
  }

  /** More buffers than pins and than blocks in use without one. */
  predicate Room(s: State, held: set<nat>) {
    && |s.bufs| > Pins(s) + |held|
    && forall j | 0 <= j < |s.bufs| && s.bufs[j].users != {} && s.bufs[j].id.Some? ::
         s.bufs[j].id.value in held || s.Pinned(s.bufs[j].id.value)
  }

  predicate Present(s: State, b: nat) {
    exists j :: 0 <= j < |s.bufs| && s.bufs[j].id == Some(b)
  }

  lemma {:induction false} SeqToSet(xs: seq<nat>, from: nat) returns (within: set<nat>)
    requires from <= |xs|
    ensures |within| <= |xs| - from && forall k | from <= k < |xs| :: xs[k] in within
    decreases |xs| - from
  {
    if from == |xs| {
      within := {};
    } else {
      within := SeqToSet(xs, from + 1);
      within := within + {xs[from]};
    }
  }

  /** With more buffers than pins and than blocks in use, some buffer is free. */
  lemma FreeBuffer(l: Layout, r: Run, held: set<nat>) returns (k: nat)
    requires IsRun(l, r) && r.last.FirstPin() <= |r.last.lh| && Room(r.last, held)
    ensures k < |r.last.bufs| && r.last.bufs[k].refcnt == 0
  {
    hide IsRun;
    var s := r.last;
    if k' :| 0 <= k' < |s.bufs| && s.bufs[k'].refcnt == 0 {
      k := k';
    } else {
      var pins := SeqToSet(s.lh, s.FirstPin());
      forall j | 0 <= j < |s.bufs| ensures s.bufs[j].id.Some? && s.bufs[j].id.value in held + pins {
        BufOk(l, r, j);
      }
      var ids := seq(|s.bufs|, j requires 0 <= j < |s.bufs| => s.bufs[j].id.value);
      forall i, j | 0 <= i < j < |ids| ensures ids[i] != ids[j] {
        if ids[i] == ids[j] {
          OneBuffer(l, r, i, j);
        }
      }
      assert |held + pins| <= |held| + |pins| by {
        assert held + pins == held + (pins - held);
      }
      AllDifferent(ids, 0, held + pins);
      assert false;
    }
  }

  /** The lock on a buffer that `p` alone has taken, and its contents. */
  lemma LockFill(l: Layout, r: Run, p: nat, i: nat, b: nat) returns (q: Run)
    requires IsRun(l, r) && i < |r.last.bufs| && r.last.bufs[i].id == Some(b) && b < |r.last.disk|
    requires p in r.last.bufs[i].users && r.last.bufs[i].holder.None?
    ensures IsRun(l, q) && Extends(r, q) && q.spec == r.spec && OnlyBufs(r.last, q.last)
    ensures q.last.Holds(p, i, b) && q.last.bufs[i].users == r.last.bufs[i].users
    ensures q.last.bufs[i].scratch == r.last.bufs[i].scratch && q.last.bufs[i].refcnt == r.last.bufs[i].refcnt
    ensures forall j | 0 <= j < |r.last.bufs| && j != i :: q.last.bufs[j] == r.last.bufs[j]
  {
    hide IsRun, Extends;
    var s := r.last;
    var t := s.(bufs := s.bufs[i := s.bufs[i].(holder := Some(p))]);
    assert CacheStep(s, Lock(p, i), t);
    q := Cached1(l, r, Lock(p, i), t);
    if !t.bufs[i].valid {
      var u := t.(bufs := t.bufs[i := t.bufs[i].(valid := true, data := t.disk[b])]);
      assert DataStep(l, t, Fill(p, i), u);
      var m := q;
      q := Cached1(l, m, Fill(p, i), u);
      ExtendsTrans(r, m, q);
    }
  }

  /** `p` has block `b`, in a buffer that held it before or was free. */
  predicate Got(s: State, t: State, p: nat, b: nat, i: nat) {
    && OnlyBufs(s, t) && t.Holds(p, i, b)
    && (s.bufs[i] == t.bufs[i] || (s.bufs[i].users == {} && t.bufs[i].users == {p} && (s.bufs[i].id == Some(b) || s.bufs[i].refcnt == 0)))
    && t.bufs[i].scratch == s.bufs[i].scratch
    && forall j | 0 <= j < |s.bufs| && j != i :: t.bufs[j] == s.bufs[j]
  }

  lemma Hit(l: Layout, r: Run, p: nat, i: nat, b: nat) returns (q: Run)
    requires IsRun(l, r) && b < |r.last.disk| && i < |r.last.bufs| && r.last.bufs[i].id == Some(b) && r.last.bufs[i].users == {}
    ensures IsRun(l, q) && Extends(r, q) && q.spec == r.spec && Got(r.last, q.last, p, b, i)
  {
    hide IsRun, Extends;
    BufOk(l, r, i);
    var s := r.last;
    var t := s.(bufs := s.bufs[i := s.bufs[i].(refcnt := s.bufs[i].refcnt + 1, users := s.bufs[i].users + {p})]);
    assert CacheStep(s, GetHit(p, i), t);
    var m := Cached1(l, r, GetHit(p, i), t);
    q := LockFill(l, m, p, i, b);
    ExtendsTrans(r, m, q);
  }

  lemma Miss(l: Layout, r: Run, p: nat, i: nat, b: nat) returns (q: Run)
    requires IsRun(l, r) && b < |r.last.disk| && i < |r.last.bufs| && r.last.bufs[i].refcnt == 0
    requires forall j | 0 <= j < |r.last.bufs| :: r.last.bufs[j].id != Some(b)
    ensures IsRun(l, q) && Extends(r, q) && q.spec == r.spec && Got(r.last, q.last, p, b, i) && q.last.bufs[i].refcnt == 1
  {
    hide IsRun, Extends;
    BufOk(l, r, i);
    var s := r.last;
    var t := s.(bufs := s.bufs[i := s.bufs[i].(id := Some(b), valid := false, refcnt := 1, users := s.bufs[i].users + {p}, stray := false)]);
    assert CacheStep(s, GetMiss(p, i, b), t);
    var m := Cached1(l, r, GetMiss(p, i, b), t);
    q := LockFill(l, m, p, i, b);
    ExtendsTrans(r, m, q);
  }

  /** `bread`: with buffers enough, a process gets a block that nobody else uses. */
  lemma Bread(l: Layout, r: Run, p: nat, b: nat, held: set<nat>) returns (q: Run, i: nat)
    requires IsRun(l, r) && b < |r.last.disk| && r.last.FirstPin() <= |r.last.lh|
    requires forall j | 0 <= j < |r.last.bufs| && r.last.bufs[j].id == Some(b) :: r.last.bufs[j].users == {} || r.last.Holds(p, j, b)
    requires r.last.Pinned(b) || Present(r.last, b) || Room(r.last, held)
    ensures IsRun(l, q) && Extends(r, q) && q.spec == r.spec && i < |r.last.bufs| && Got(r.last, q.last, p, b, i)
  {
    hide IsRun, Extends;
    PinnedThere(l, r, b);
    if j :| 0 <= j < |r.last.bufs| && r.last.bufs[j].id == Some(b) {
      i := j;
      if r.last.bufs[j].users == {} {
        q := Hit(l, r, p, i, b);
      } else {
        q := r;
        ExtendsSelf(r);
      }
    } else {
      i := FreeBuffer(l, r, held);
      q := Miss(l, r, p, i, b);
    }
  }

  lemma PinnedThere(l: Layout, r: Run, b: nat)
    requires IsRun(l, r)
    ensures r.last.Pinned(b) ==> Present(r.last, b)
  {
    hide PhaseInv, CacheInv, DataInv, StrayInv, ScratchInv, IsRun;
    RunInv(l, r);
    if r.last.Pinned(b) {
      PinnedIsCached(r.last, b);
    }
  }

  // ---------------------------------------------------------------- the writes of commit and recovery

  /** `p` puts what it is about to write into the buffer it holds for it. */
  lemma Prepare(l: Layout, r: Run, p: nat, i: nat, data: Block) returns (q: Run)
    requires IsRun(l, r) && r.last.phase != Idle && r.last.Target(l).Some? && r.last.Holds(p, i, r.last.Target(l).value)
    ensures IsRun(l, q) && Extends(r, q) && q.spec == r.spec
    ensures q.last == r.last.(bufs := r.last.bufs[i := r.last.bufs[i].(data := data, scratch := true)])
  {
    hide IsRun, Extends;
    var t := r.last.(bufs := r.last.bufs[i := r.last.bufs[i].(data := data, scratch := true)]);
    assert DataStep(l, r.last, Modify(p, i, data), t);
    q := Cached1(l, r, Modify(p, i, data), t);
  }

  /** What a step of `commit` or of recovery leaves as it was. */
  predicate Went(r: Run, q: Run) {
    && Extends(r, q) && |q.last.bufs| == |r.last.bufs| && q.spec.current == r.spec.current && q.last.ops == r.last.ops
    && |q.last.disk| == |r.last.disk|
  }

  lemma PhaseOk(l: Layout, r: Run)
    requires IsRun(l, r)
    ensures r.last.FirstPin() <= |r.last.lh|
    ensures r.last.phase.Copying? || r.last.phase.Installing? || r.last.phase.Redoing? ==> r.last.phase.tail <= |r.last.lh|
    ensures r.last.phase == Cleared || r.last.phase == Booting ==> r.last.lh == []
    ensures r.last.phase.Copying? ==> r.last.lh != []
    ensures r.last.phase == Booting ==> Recoverable(l, r.last.disk)
    ensures r.last.phase != Idle ==> r.last.ops == {}
    ensures r.last.phase == Cleared || r.last.Recovering() || r.last.phase.Installing? ==> SameHome(l, r.spec.current, r.spec.durable)
  {
    hide CacheInv, PinInv, ScratchInv, StrayInv, IsRun;
    RunInv(l, r);
  }

  /** Two blocks, the one to be written last. */
  lemma TwoBlocks(l: Layout, r: Run, b: nat) returns (q: Run, p: nat, i: nat, j: nat)
    requires IsRun(l, r) && r.last.phase != Idle && r.last.Target(l).Some? && b != r.last.Target(l).value
    requires b < |r.last.disk| && r.last.Target(l).value < |r.last.disk|
    requires r.last.Pinned(b) || r.last.Pinned(r.last.Target(l).value) || |r.last.bufs| > Pins(r.last) + 1
    requires |r.last.bufs| > Pins(r.last)
    ensures IsRun(l, q) && Extends(r, q) && q.spec == r.spec && OnlyBufs(r.last, q.last)
    ensures q.last.Holds(p, i, b) && q.last.Holds(p, j, r.last.Target(l).value)
  {
    hide IsRun, Extends, Got, Room;
    PhaseOk(l, r);
    var m;
    m, p := Quieten(l, r);
    if r.last.Pinned(r.last.Target(l).value) {
      q, i, j := TargetLast(l, m, p, b);
    } else {
      q, j, i := TargetFirst(l, m, p, b);
    }
    ExtendsTrans(r, m, q);
  }

  lemma TargetLast(l: Layout, r: Run, p: nat, b: nat) returns (q: Run, i: nat, j: nat)
    requires IsRun(l, r) && r.last.FirstPin() <= |r.last.lh| && r.last.Target(l).Some? && b != r.last.Target(l).value
    requires Quiet(r.last, p, r.last.Target(l)) && b < |r.last.disk| && r.last.Target(l).value < |r.last.disk|
    requires r.last.Pinned(r.last.Target(l).value) && |r.last.bufs| > Pins(r.last)
    ensures IsRun(l, q) && Extends(r, q) && q.spec == r.spec && OnlyBufs(r.last, q.last)
    ensures q.last.Holds(p, i, b) && q.last.Holds(p, j, r.last.Target(l).value)
  {
    hide IsRun, Extends;
    var c := r.last.Target(l).value;
    assert Room(r.last, {});
    var m;
    m, i := Bread(l, r, p, b, {});
    BreadOther(l, r, m, p, b, i, c);
    q, j := Bread(l, m, p, c, {});
    ExtendsTrans(r, m, q);
    StillHeld(l, m, q, p, b, i, c, j);
  }

  lemma TargetFirst(l: Layout, r: Run, p: nat, b: nat) returns (q: Run, i: nat, j: nat)
    requires IsRun(l, r) && r.last.FirstPin() <= |r.last.lh| && r.last.Target(l).Some? && b != r.last.Target(l).value
    requires Quiet(r.last, p, r.last.Target(l)) && b < |r.last.disk| && r.last.Target(l).value < |r.last.disk|
    requires |r.last.bufs| > Pins(r.last) && (r.last.Pinned(b) || |r.last.bufs| > Pins(r.last) + 1)
    ensures IsRun(l, q) && Extends(r, q) && q.spec == r.spec && OnlyBufs(r.last, q.last)
    ensures q.last.Holds(p, i, r.last.Target(l).value) && q.last.Holds(p, j, b)
  {
    hide IsRun, Extends;
    var c := r.last.Target(l).value;
    assert Present(r.last, c) || Room(r.last, {});
    var m;
    m, i := Bread(l, r, p, c, {});
    BreadOther(l, r, m, p, c, i, b);
    q, j := Bread(l, m, p, b, {c});
    ExtendsTrans(r, m, q);
    StillHeld(l, m, q, p, c, i, b, j);
  }

  /** After one `bread`, before another. */
  lemma BreadOther(l: Layout, r: Run, m: Run, p: nat, b: nat, i: nat, c: nat)
    requires IsRun(l, m) && OnlyBufs(r.last, m.last) && i < |r.last.bufs| && Got(r.last, m.last, p, b, i) && b != c
    requires Quiet(r.last, p, Some(b)) || Quiet(r.last, p, Some(c))
    ensures forall j | 0 <= j < |m.last.bufs| && m.last.bufs[j].id == Some(c) :: m.last.bufs[j].users == {} || m.last.Holds(p, j, c)
    ensures forall j | 0 <= j < |m.last.bufs| && m.last.bufs[j].users != {} && m.last.bufs[j].id.Some? :: m.last.bufs[j].id.value in {b, c}
    ensures Pins(m.last) == Pins(r.last) && m.last.FirstPin() == r.last.FirstPin() && m.last.lh == r.last.lh
  {
  }

  lemma StillHeld(l: Layout, m: Run, q: Run, p: nat, b: nat, i: nat, c: nat, j: nat)
    requires m.last.Holds(p, i, b) && OnlyBufs(m.last, q.last) && j < |m.last.bufs| && Got(m.last, q.last, p, c, j) && b != c
    requires IsRun(l, m)
    ensures q.last.Holds(p, i, b)
  {
    BufOk(l, m, i);
  }

  /** One block: the one to be written, or the header at boot. */
  lemma OneBlock(l: Layout, r: Run, b: nat) returns (q: Run, p: nat, i: nat)
    requires IsRun(l, r) && r.last.phase != Idle && b < |r.last.disk| && |r.last.bufs| > Pins(r.last)
    requires r.last.Target(l) == Some(b) || r.last.Target(l).None?
    ensures IsRun(l, q) && Extends(r, q) && q.spec == r.spec && OnlyBufs(r.last, q.last) && q.last.Holds(p, i, b)
  {
    hide IsRun, Extends, Quiet, Present, Room, Pins;
    PhaseOk(l, r);
    var m;
    m, p := Quieten(l, r);
    assert Pins(m.last) == Pins(r.last) by {
      SamePinCount(r.last, m.last);
    }
    QuietRoom(m.last, p, r.last.Target(l), b);
    q, i := Bread(l, m, p, b, {});
    ExtendsTrans(r, m, q);
  }

  lemma SamePinCount(s: State, t: State)
    requires OnlyBufs(s, t)
    ensures Pins(t) == Pins(s)
  {
  }

  lemma QuietRoom(s: State, p: nat, target: Option<nat>, b: nat)
    requires Quiet(s, p, target) && (target == Some(b) || target.None?) && |s.bufs| > Pins(s)
    ensures Present(s, b) || Room(s, {})
    ensures forall j | 0 <= j < |s.bufs| && s.bufs[j].id == Some(b) :: s.bufs[j].users == {} || s.Holds(p, j, b)
  {
  }

  /** The block to be written is ready, with the header's contents ... */
  lemma HeaderReady(l: Layout, r: Run, lh: seq<nat>) returns (q: Run, p: nat, i: nat)
    requires IsRun(l, r) && r.last.phase != Idle && r.last.Target(l) == Some(l.start) && |r.last.bufs| > Pins(r.last)
    requires |lh| <= LOGSIZE && (forall k | 0 <= k < |lh| :: lh[k] < UINT_MAX1)
    ensures IsRun(l, q) && Extends(r, q) && q.spec == r.spec && OnlyBufs(r.last, q.last)
    ensures q.last.Holds(p, i, l.start) && Names(q.last.bufs[i].data, lh)
  {
    hide IsRun, Extends, PutHeader;
    LogOk(l, r);
    HeaderRoundTrip(Zeroed(), lh);
    var m;
    m, p, i := OneBlock(l, r, l.start);
    q := Prepare(l, m, p, i, PutHeader(Zeroed(), lh));
    ExtendsTrans(r, m, q);
  }

  /** ... or with those of another block. */
  lemma CopyReady(l: Layout, r: Run, b: nat) returns (q: Run, p: nat, i: nat, j: nat)
    requires IsRun(l, r) && r.last.phase != Idle && r.last.Target(l).Some? && b != r.last.Target(l).value
    requires b < |r.last.disk| && r.last.Target(l).value < |r.last.disk| && |r.last.bufs| > Pins(r.last)
    requires r.last.Pinned(b) || r.last.Pinned(r.last.Target(l).value) || |r.last.bufs| > Pins(r.last) + 1
    ensures IsRun(l, q) && Extends(r, q) && q.spec == r.spec && OnlyBufs(r.last, q.last)
    ensures q.last.Holds(p, i, b) && q.last.Holds(p, j, r.last.Target(l).value)
    ensures q.last.bufs[j].data == q.last.bufs[i].data && q.last.bufs[j].refcnt >= 1
  {
    hide IsRun, Extends;
    var m;
    m, p, i, j := TwoBlocks(l, r, b);
    q := Prepare(l, m, p, j, m.last.bufs[i].data);
    ExtendsTrans(r, m, q);
    BufOk(l, q, j);
  }

  /** The prepared block is written. */
  lemma Written(l: Layout, r: Run, n: Run, a: Action, t: State) returns (q: Run)
    requires IsRun(l, n) && Extends(r, n) && n.spec == r.spec && OnlyBufs(r.last, n.last)
    requires Plain(a) && l.Fits(n.last.disk) && Loggable(l, n.last.disk, n.last.lh)
    requires CommitStep(l, n.last, a, t) || RecoveryStep(l, n.last, a, t)
    ensures IsRun(l, q) && Went(r, q) && q.last == t
    ensures if a.WriteHead? then q.spec.durable == r.spec.current else q.spec == r.spec
  {
    hide CacheStep, DataStep, IsRun, Extends, Names;
    q := Stepped(l, n, a, t);
    ExtendsTrans(r, n, q);
  }

  lemma CopyOne(l: Layout, r: Run) returns (q: Run)
    requires IsRun(l, r) && r.last.phase.Copying? && r.last.phase.tail < |r.last.lh| && |r.last.bufs| > |r.last.lh|
    ensures IsRun(l, q) && Went(r, q) && q.last.lh == r.last.lh && q.last.phase == Copying(r.last.phase.tail + 1)
    ensures q.spec.durable == r.spec.durable
  {
    hide IsRun, Extends, RecoveryStep, Names, Went, CommitStep;
    LogOk(l, r);
    var k := r.last.phase.tail;
    assert r.last.Pinned(r.last.lh[k]);
    var n, p, from, to := CopyReady(l, r, r.last.lh[k]);
    var t := CopyStep(l, n.last, p, to, from);
    q := Written(l, r, n, CopyBlock(p, to, from), t);
  }

  lemma CopyStep(l: Layout, s: State, p: nat, to: nat, from: nat) returns (t: State)
    requires l.Fits(s.disk) && Loggable(l, s.disk, s.lh) && s.phase.Copying? && s.phase.tail < |s.lh|
    requires s.Holds(p, to, l.start + s.phase.tail + 1) && s.Holds(p, from, s.lh[s.phase.tail])
    requires s.bufs[to].data == s.bufs[from].data
    ensures CommitStep(l, s, CopyBlock(p, to, from), t) && t.lh == s.lh && t.phase == Copying(s.phase.tail + 1)
  {
    t := s.(disk := s.disk[l.start + s.phase.tail + 1 := s.bufs[to].data],
            bufs := s.bufs[to := s.bufs[to].(scratch := false)], phase := Copying(s.phase.tail + 1));
  }

  lemma HeadOne(l: Layout, r: Run) returns (q: Run)
    requires IsRun(l, r) && r.last.phase == Copying(|r.last.lh|) && |r.last.bufs| > |r.last.lh|
    ensures IsRun(l, q) && Went(r, q) && q.last.lh == r.last.lh && q.last.phase == Installing(0)
    ensures q.spec.durable == r.spec.current
  {
    hide IsRun, Extends, RecoveryStep, Names, Went, CommitStep;
    LogOk(l, r);
    var n, p, i := HeaderReady(l, r, r.last.lh);
    var t := HeadStep(l, n.last, p, i);
    q := Written(l, r, n, WriteHead(p, i), t);
  }

  lemma HeadStep(l: Layout, s: State, p: nat, i: nat) returns (t: State)
    requires l.Fits(s.disk) && Loggable(l, s.disk, s.lh) && s.phase == Copying(|s.lh|)
    requires s.Holds(p, i, l.start) && Names(s.bufs[i].data, s.lh)
    ensures CommitStep(l, s, WriteHead(p, i), t) && t.lh == s.lh && t.phase == Installing(0)
  {
    t := s.(disk := s.disk[l.start := s.bufs[i].data], bufs := s.bufs[i := s.bufs[i].(scratch := false)],
            phase := Installing(0));
  }

  lemma InstallOne(l: Layout, r: Run) returns (q: Run)
    requires IsRun(l, r) && r.last.phase.Installing? && r.last.phase.tail < |r.last.lh| && |r.last.bufs| > |r.last.lh|
    ensures IsRun(l, q) && Went(r, q) && q.last.lh == r.last.lh && q.last.phase == Installing(r.last.phase.tail + 1)
    ensures q.spec.durable == r.spec.durable
  {
    hide IsRun, Extends, RecoveryStep, Names, Went, CommitStep;
    LogOk(l, r);
    var k := r.last.phase.tail;
    assert r.last.Pinned(r.last.lh[k]);
    var n, p, lb, db := CopyReady(l, r, l.start + k + 1);
    var t := InstallStep(l, n.last, p, lb, db);
    q := Written(l, r, n, Install(p, lb, db), t);
  }

  lemma InstallStep(l: Layout, s: State, p: nat, lb: nat, db: nat) returns (t: State)
    requires l.Fits(s.disk) && Loggable(l, s.disk, s.lh) && s.phase.Installing? && s.phase.tail < |s.lh|
    requires s.Holds(p, lb, l.start + s.phase.tail + 1) && s.Holds(p, db, s.lh[s.phase.tail])
    requires s.bufs[db].data == s.bufs[lb].data && s.bufs[db].refcnt >= 1
    ensures CommitStep(l, s, Install(p, lb, db), t) && t.lh == s.lh && t.phase == Installing(s.phase.tail + 1)
  {
    t := s.(disk := s.disk[s.lh[s.phase.tail] := s.bufs[db].data],
            bufs := s.bufs[db := s.bufs[db].(refcnt := s.bufs[db].refcnt - 1, scratch := false)],
            phase := Installing(s.phase.tail + 1));
  }

  lemma ClearOne(l: Layout, r: Run) returns (q: Run)
    requires IsRun(l, r) && r.last.phase == Installing(|r.last.lh|) && |r.last.bufs| > 0
    ensures IsRun(l, q) && Went(r, q) && q.last.lh == [] && q.last.phase == Cleared && q.spec.durable == r.spec.durable
  {
    hide IsRun, Extends, RecoveryStep, Names, Went, CommitStep;
    LogOk(l, r);
    var n, p, i := HeaderReady(l, r, []);
    var t := ClearStep(l, n.last, p, i);
    q := Written(l, r, n, ClearHead(p, i), t);
  }

  lemma ClearStep(l: Layout, s: State, p: nat, i: nat) returns (t: State)
    requires l.Fits(s.disk) && Loggable(l, s.disk, s.lh) && s.phase == Installing(|s.lh|)
    requires s.Holds(p, i, l.start) && Names(s.bufs[i].data, [])
    ensures CommitStep(l, s, ClearHead(p, i), t) && t.lh == [] && t.phase == Cleared
  {
    t := s.(disk := s.disk[l.start := s.bufs[i].data], bufs := s.bufs[i := s.bufs[i].(scratch := false)],
            lh := [], phase := Cleared);
  }

  lemma EndOne(l: Layout, r: Run) returns (q: Run)
    requires IsRun(l, r) && r.last.phase == Cleared
    ensures IsRun(l, q) && Went(r, q) && q.last == r.last.(phase := Idle) && q.spec == r.spec
  {
    hide IsRun, Extends, Names;
    LogOk(l, r);
    ExtendsSelf(r);
    var t := r.last.(phase := Idle);
    assert CommitStep(l, r.last, EndCommit, t);
    q := Written(l, r, r, EndCommit, t);
  }

  // ---------------------------------------------------------------- a commit can go on

  /** How many disk writes `commit` has still to make. */
  function ToDo(s: State): nat {
    match s.phase
    case Copying(t) => if t <= |s.lh| then 2 * |s.lh| - t + 3 else 0
    case Installing(t) => if t <= |s.lh| then |s.lh| - t + 2 else 0
    case Cleared => 1
    case _ => 0
  }

  predicate Committing(s: State) {
    s.phase.Copying? || s.phase.Installing? || s.phase == Cleared
  }

  lemma OneMore(l: Layout, r: Run) returns (q: Run)
    requires IsRun(l, r) && Committing(r.last) && |r.last.bufs| > |r.last.lh|
    ensures IsRun(l, q) && Went(r, q) && ToDo(q.last) < ToDo(r.last)
    ensures if r.last.phase == Cleared then q.last.phase == Idle else Committing(q.last)
    ensures q.last.lh == r.last.lh || q.last.lh == []
  {
    hide IsRun, Went;
    PhaseOk(l, r);
    match r.last.phase
    case Copying(t) =>
      if t < |r.last.lh| {
        q := CopyOne(l, r);
      } else {
        q := HeadOne(l, r);
      }
    case Installing(t) =>
      if t < |r.last.lh| {
        q := InstallOne(l, r);
      } else {
        q := ClearOne(l, r);
      }
    case Cleared =>
      q := EndOne(l, r);
  }

  /** From every state of every run inside a commit, with more buffers than the
      log has entries, the commit can be brought to its end, whoever uses buffers
      at the time; and what was current is then durable. */
  lemma {:induction false} CommitEnds(l: Layout, r: Run) returns (q: Run)
    requires IsRun(l, r) && Committing(r.last) && |r.last.bufs| > |r.last.lh|
    ensures IsRun(l, q) && Went(r, q) && q.last.phase == Idle && q.last.lh == []
    ensures SameHome(l, q.spec.current, q.spec.durable)
    decreases ToDo(r.last)
  {
    hide IsRun, Extends;
    if r.last.phase == Cleared {
      PhaseOk(l, r);
      q := EndOne(l, r);
    } else {
      var m := OneMore(l, r);
      q := CommitEnds(l, m);
      ExtendsTrans(r, m, q);
    }
  }

  // ---------------------------------------------------------------- recovery can go on

  lemma HeaderHeld(l: Layout, r: Run, p: nat, i: nat)
    requires IsRun(l, r) && r.last.phase == Booting && r.last.Holds(p, i, l.start)
    ensures r.last.bufs[i].data == r.last.disk[l.start] && Recoverable(l, r.last.disk)
  {
    hide IsRun, CacheInv, PinInv, DataInv, Recoverable;
    RunInv(l, r);
    CommitSeesLogged(l, r.last, i);
    NotStray(l, r.last, i, l.start);
    HeldData(l, r.last, r.spec, p, i, l.start);
  }

  lemma BootOne(l: Layout, r: Run) returns (q: Run)
    requires IsRun(l, r) && r.last.phase == Booting && |r.last.bufs| > 0
    ensures IsRun(l, q) && Went(r, q) && q.last.phase == Redoing(0) && q.spec == r.spec && q.last.disk == r.last.disk
    ensures Recoverable(l, r.last.disk) && q.last.lh == HeaderBlocks(r.last.disk[l.start])
  {
    hide IsRun, Extends, CommitStep, RecoveryStep, Went, HeaderBlocks;
    LogOk(l, r);
    PhaseOk(l, r);
    var n, p, i := OneBlock(l, r, l.start);
    HeaderHeld(l, n, p, i);
    var t := ReadStep(l, n.last, p, i);
    q := Written(l, r, n, ReadHead(p, i), t);
  }

  lemma ReadStep(l: Layout, s: State, p: nat, i: nat) returns (t: State)
    requires l.Fits(s.disk) && Loggable(l, s.disk, s.lh) && s.phase == Booting && s.Holds(p, i, l.start)
    requires Word(s.bufs[i].data, 0) <= LOGSIZE
    ensures RecoveryStep(l, s, ReadHead(p, i), t) && t == s.(lh := HeaderBlocks(s.bufs[i].data), phase := Redoing(0))
  {
    t := s.(lh := HeaderBlocks(s.bufs[i].data), phase := Redoing(0));
  }

  lemma RedoOne(l: Layout, r: Run) returns (q: Run)
    requires IsRun(l, r) && r.last.phase.Redoing? && r.last.phase.tail < |r.last.lh| && |r.last.bufs| > 1
    ensures IsRun(l, q) && Went(r, q) && q.last.lh == r.last.lh && q.last.phase == Redoing(r.last.phase.tail + 1)
    ensures q.spec == r.spec
  {
    hide IsRun, Extends, CommitStep, RecoveryStep, Names, Went;
    LogOk(l, r);
    var n, p, lb, db := CopyReady(l, r, l.start + r.last.phase.tail + 1);
    var t := RedoStep(l, n.last, p, lb, db);
    q := Written(l, r, n, RedoBlock(p, lb, db), t);
  }

  lemma RedoStep(l: Layout, s: State, p: nat, lb: nat, db: nat) returns (t: State)
    requires l.Fits(s.disk) && Loggable(l, s.disk, s.lh) && s.phase.Redoing? && s.phase.tail < |s.lh|
    requires s.Holds(p, lb, l.start + s.phase.tail + 1) && s.Holds(p, db, s.lh[s.phase.tail])
    requires s.bufs[db].data == s.bufs[lb].data
    ensures RecoveryStep(l, s, RedoBlock(p, lb, db), t) && t.lh == s.lh && t.phase == Redoing(s.phase.tail + 1)
  {
    t := s.(disk := s.disk[s.lh[s.phase.tail] := s.bufs[db].data],
            bufs := s.bufs[db := s.bufs[db].(scratch := false)], phase := Redoing(s.phase.tail + 1));
  }

  lemma FinishOne(l: Layout, r: Run) returns (q: Run)
    requires IsRun(l, r) && r.last.phase == Redoing(|r.last.lh|) && |r.last.bufs| > 0
    ensures IsRun(l, q) && Went(r, q) && q.last.lh == [] && q.last.phase == Idle && q.spec == r.spec
  {
    hide IsRun, Extends, CommitStep, RecoveryStep, Names, Went;
    LogOk(l, r);
    var n, p, i := HeaderReady(l, r, []);
    var t := FinishStep(l, n.last, p, i);
    q := Written(l, r, n, FinishRedo(p, i), t);
  }

  lemma FinishStep(l: Layout, s: State, p: nat, i: nat) returns (t: State)
    requires l.Fits(s.disk) && Loggable(l, s.disk, s.lh) && s.phase == Redoing(|s.lh|)
    requires s.Holds(p, i, l.start) && Names(s.bufs[i].data, [])
    ensures RecoveryStep(l, s, FinishRedo(p, i), t) && t.lh == [] && t.phase == Idle
  {
    t := s.(disk := s.disk[l.start := s.bufs[i].data], bufs := s.bufs[i := s.bufs[i].(scratch := false)],
            lh := [], phase := Idle);
  }

  /** What recovery has to copy home, and may know of only once it has read the header. */
  predicate NoneToRedo(l: Layout, s: State) {
    if s.phase == Booting then Recoverable(l, s.disk) && HeaderBlocks(s.disk[l.start]) == [] else s.lh == []
  }

  /** From every state of every run inside recovery, recovery can be brought to its
      end with two buffers, or with one if there is nothing to copy. */
  lemma {:induction false} RecoveryEnds(l: Layout, r: Run) returns (q: Run)
    requires IsRun(l, r) && r.last.Recovering() && |r.last.bufs| > if NoneToRedo(l, r.last) then 0 else 1
    ensures IsRun(l, q) && Went(r, q) && q.last.phase == Idle && q.last.lh == [] && q.spec == r.spec
    decreases r.last.phase.Booting?, if r.last.phase.Redoing? && r.last.phase.tail <= |r.last.lh| then |r.last.lh| - r.last.phase.tail else 0
  {
    hide IsRun, Extends;
    PhaseOk(l, r);
    if r.last.phase == Redoing(|r.last.lh|) {
      q := FinishOne(l, r);
    } else {
      var m;
      if r.last.phase == Booting {
        m := BootOne(l, r);
      } else {
        m := RedoOne(l, r);
      }
      q := RecoveryEnds(l, m);
      ExtendsTrans(r, m, q);
    }
  }

  // ---------------------------------------------------------------- a commit that cannot

  /** Every buffer is pinned, and a block is still to be copied to the log. */
  predicate Stuck(s: State) {
    && s.phase.Copying? && s.phase.tail < |s.lh|
    && forall i | 0 <= i < |s.bufs| :: s.bufs[i].id.Some? && s.Pinned(s.bufs[i].id.value)
  }

  /** `q` is `r` and then steps of any kind but a crash. */
  predicate Continues(r: Run, q: Run) {
    q == r || (q.Then? && !q.a.Crash? && Continues(r, q.before))
  }

  lemma NoLogBlock(l: Layout, s: State, i: nat, b: nat)
    requires Loggable(l, s.disk, s.lh) && Stuck(s) && i < |s.bufs| && l.InLog(b)
    ensures s.bufs[i].id != Some(b) && (CacheInv(s) ==> s.bufs[i].refcnt > 0)
  {
    assert s.Pinned(s.bufs[i].id.value);
    assert CacheInv(s) ==> BufInv(s, s.bufs[i]);
  }

  lemma StuckStep(l: Layout, s: State, sp: Spec, a: Action, t: State)
    requires Inv(l, s, sp) && Stuck(s) && Next(l, s, a, t) && !a.Crash?
    ensures Stuck(t) && t.phase == s.phase && SpecNext(sp, s, a).durable == sp.durable
  {
    hide PhaseInv, PinInv, DataInv, ScratchInv, StrayInv, Names, CacheInv;
    forall i | 0 <= i < |s.bufs| ensures s.bufs[i].refcnt > 0 && s.bufs[i].id != Some(l.start + s.phase.tail + 1) {
      NoLogBlock(l, s, i, l.start + s.phase.tail + 1);
    }
    StuckIds(l, s, a, t);
    SamePins(s, t);
  }

  lemma StuckIds(l: Layout, s: State, a: Action, t: State)
    requires Next(l, s, a, t) && !a.Crash? && s.phase.Copying? && s.phase.tail < |s.lh|
    requires forall i | 0 <= i < |s.bufs| :: s.bufs[i].refcnt > 0 && s.bufs[i].id != Some(l.start + s.phase.tail + 1)
    ensures t.phase == s.phase && t.lh == s.lh && |t.bufs| == |s.bufs| && !a.WriteHead? && !a.LogWrite? && !a.Abandon?
    ensures forall i | 0 <= i < |s.bufs| :: t.bufs[i].id == s.bufs[i].id
  {
    hide Names, Loggable;
  }

  /** Then nothing but a crash helps: the commit never writes its header. */
  lemma {:induction false} StuckForever(l: Layout, r: Run, q: Run)
    requires IsRun(l, r) && IsRun(l, q) && Stuck(r.last) && Continues(r, q)
    ensures Stuck(q.last) && q.last.phase == r.last.phase && q.spec.durable == r.spec.durable
  {
    if q != r {
      StuckForever(l, r, q.before);
      hide Next, Inv, Stuck, SpecNext;
      RunInv(l, q.before);
      StuckStep(l, q.before.last, q.before.spec, q.a, q.last);
    }
  }

  // ---------------------------------------------------------------- a run that gets there

  /** How many blocks an operation has added to the log. */
  function Added(r: Run, p: nat): nat {
    match r
    case Boot(_, _) => 0
    case Then(q, a, _, _) => if a == BeginOp(p) then 0 else Added(q, p) + if Adds(q.last, a, p) then 1 else 0
  }

  predicate Adds(s: State, a: Action, p: nat) {
    a.LogWrite? && a.p == p && a.i < |s.bufs| && s.bufs[a.i].id.Some? && s.bufs[a.i].id.value !in s.lh
  }

  /** No operation adds more blocks than `begin_op` reserves for it. */
  predicate InBudget(r: Run) {
    match r
    case Boot(_, _) => true
    case Then(q, a, _, _) => InBudget(q) && (a.LogWrite? ==> Added(r, a.p) <= MAXOPBLOCKS)
  }

  lemma {:induction false} ExtendsBudget(r: Run, q: Run)
    requires Extends(r, q)
    ensures InBudget(q) == InBudget(r) && forall p :: Added(q, p) == Added(r, p)
  {
    if q != r {
      ExtendsBudget(r, q.before);
    }
  }

  /** The first block after the log. */
  function Home(l: Layout): nat {
    l.start + l.size
  }

  predicate Unused(s: State) {
    forall j | 0 <= j < |s.bufs| :: s.bufs[j].users == {}
  }

  /** Three operations have logged the first `k` blocks after the log. */
  predicate FilledTo(l: Layout, s: State, k: nat) {
    s.phase == Idle && s.ops == {0, 1, 2} && s.lh == seq(k, i => Home(l) + i) && Unused(s)
  }

  /** What operation `p` has logged by then. */
  function Share(p: nat, k: nat): nat {
    if k <= MAXOPBLOCKS * p then 0 else if k <= MAXOPBLOCKS * (p + 1) then k - MAXOPBLOCKS * p else MAXOPBLOCKS
  }

  predicate Shares(r: Run, k: nat) {
    InBudget(r) && Added(r, 0) == Share(0, k) && Added(r, 1) == Share(1, k) && Added(r, 2) == Share(2, k)
  }

  lemma Took(l: Layout, r: Run, a: Action, t: State) returns (q: Run)
    requires IsRun(l, r) && DataStep(l, r.last, a, t)
    ensures IsRun(l, q) && q == Then(r, a, t, SpecNext(r.spec, r.last, a))
  {
    hide DataStep, CacheStep, CommitStep, RecoveryStep, SpecNext;
    LogOk(l, r);
    q := Then(r, a, t, SpecNext(r.spec, r.last, a));
  }

  lemma BootRun(l: Layout, n: nat, d: nat) returns (r: Run)
    requires 1 <= l.size && Home(l) <= d
    ensures IsRun(l, r) && r.last.phase == Booting && |r.last.bufs| == n && |r.last.disk| == d && r.last.ops == {}
    ensures NoneToRedo(l, r.last) && r.Boot?
  {
    var disk: Disk := seq(d, _ => Zeroed());
    ZeroedWords(0);
    assert HeaderBlocks(disk[l.start]) == [];
    assert Recoverable(l, disk);
    forall b | 0 <= b < d && !l.InLog(b) ensures Recovered(l, disk)[b] == disk[b] {
      RecoveredOther(l, disk, b);
    }
    r := Boot(State(disk, seq(n, _ => EmptyBuf()), [], {}, Booting), Spec(disk, disk));
  }

  lemma NoScratchIdle(l: Layout, r: Run, i: nat)
    requires IsRun(l, r) && r.last.phase == Idle && i < |r.last.bufs|
    requires r.last.ops == {} || r.last.bufs[i].users == {}
    ensures !r.last.bufs[i].scratch
  {
    hide IsRun;
    BufOk(l, r, i);
  }

  /** A machine that has just come up, with nobody at work. */
  lemma Ready(l: Layout, n: nat, d: nat) returns (r: Run)
    requires 1 <= n && 1 <= l.size && Home(l) <= d
    ensures IsRun(l, r) && r.last.phase == Idle && r.last.ops == {} && r.last.lh == [] && Unused(r.last)
    ensures |r.last.bufs| == n && |r.last.disk| == d && InBudget(r)
  {
    hide IsRun, Extends, NoneToRedo;
    var b := BootRun(l, n, d);
    var m := RecoveryEnds(l, b);
    forall i | 0 <= i < |m.last.bufs| ensures !m.last.bufs[i].scratch {
      NoScratchIdle(l, m, i);
    }
    r := Drain(l, m, n);
    ExtendsBudget(b, m);
    ExtendsBudget(m, r);
  }

  lemma ThreeOps(l: Layout, n: nat, d: nat) returns (r: Run)
    requires 1 <= n && 1 <= l.size && Home(l) <= d
    ensures IsRun(l, r) && FilledTo(l, r.last, 0) && Shares(r, 0) && |r.last.bufs| == n && |r.last.disk| == d
  {
    hide IsRun;
    r := Ready(l, n, d);
    r := Begun(l, r, 0);
    r := Begun(l, r, 1);
    r := Begun(l, r, 2);
  }

  lemma Begun(l: Layout, r: Run, p: nat) returns (q: Run)
    requires IsRun(l, r) && r.last.phase == Idle && p !in r.last.ops && |r.last.ops| < 3 && r.last.lh == []
    ensures IsRun(l, q) && q.last == r.last.(ops := r.last.ops + {p})
    ensures InBudget(q) == InBudget(r) && Added(q, p) == 0 && forall x | x != p :: Added(q, x) == Added(r, x)
  {
    hide IsRun;
    var t := r.last.(ops := r.last.ops + {p});
    assert DataStep(l, r.last, BeginOp(p), t);
    q := Took(l, r, BeginOp(p), t);
  }

  /** The next block is read, logged and released. */
  lemma LogOne(l: Layout, r: Run, k: nat) returns (q: Run)
    requires IsRun(l, r) && FilledTo(l, r.last, k) && Shares(r, k) && k < LOGSIZE && k < l.size - 1
    requires k < |r.last.bufs| && Home(l) + k < |r.last.disk| <= UINT_MAX1
    ensures IsRun(l, q) && FilledTo(l, q.last, k + 1) && Shares(q, k + 1)
    ensures |q.last.bufs| == |r.last.bufs| && |q.last.disk| == |r.last.disk|
  {
    hide IsRun, Extends;
    var p := k / MAXOPBLOCKS;
    assert Room(r.last, {});
    var m, i := Bread(l, r, p, Home(l) + k, {});
    ExtendsBudget(r, m);
    var n := LogIt(l, m, p, i, Home(l) + k);
    BudgetMore(r, m, n, k);
    q := Release(l, n, i);
    ExtendsBudget(n, q);
    assert r.last.lh + [Home(l) + k] == seq(k + 1, i => Home(l) + i);
  }

  lemma LogIt(l: Layout, r: Run, p: nat, i: nat, b: nat) returns (q: Run)
    requires IsRun(l, r) && r.last.phase == Idle && p in r.last.ops && r.last.Holds(p, i, b) && b !in r.last.lh
    requires |r.last.lh| < LOGSIZE && |r.last.lh| < l.size - 1 && !l.InLog(b) && b < UINT_MAX1
    ensures IsRun(l, q) && q.Then? && q.before == r && q.a == LogWrite(p, i) && OnlyBufs(r.last.(lh := r.last.lh + [b]), q.last)
    ensures !q.last.bufs[i].scratch && forall j | 0 <= j < |r.last.bufs| && j != i :: q.last.bufs[j] == r.last.bufs[j]
    ensures forall x :: Added(q, x) == Added(r, x) + if x == p then 1 else 0
  {
    hide IsRun;
    var s := r.last;
    var t := s.(lh := s.lh + [b], bufs := s.bufs[i := s.bufs[i].(refcnt := s.bufs[i].refcnt + 1, scratch := false, stray := false)]);
    assert DataStep(l, s, LogWrite(p, i), t);
    q := Took(l, r, LogWrite(p, i), t);
  }

  lemma BudgetMore(r: Run, m: Run, n: Run, k: nat)
    requires Shares(r, k) && k < LOGSIZE && InBudget(m) == InBudget(r) && (forall x :: Added(m, x) == Added(r, x))
    requires n.Then? && n.before == m && n.a.LogWrite? && n.a.p == k / MAXOPBLOCKS
    requires forall x :: Added(n, x) == Added(m, x) + if x == k / MAXOPBLOCKS then 1 else 0
    ensures Shares(n, k + 1)
  {
  }

  lemma {:induction false} FillUp(l: Layout, n: nat, d: nat, k: nat) returns (r: Run)
    requires 1 <= n && k <= n && k <= LOGSIZE && 1 <= l.size && k <= l.size - 1 && Home(l) + k <= d <= UINT_MAX1
    ensures IsRun(l, r) && FilledTo(l, r.last, k) && Shares(r, k) && |r.last.bufs| == n && |r.last.disk| == d
  {
    if k == 0 {
      r := ThreeOps(l, n, d);
    } else {
      var q := FillUp(l, n, d, k - 1);
      r := LogOne(l, q, k - 1);
    }
  }

  /** As many blocks as buffers, all of them cached, leave no buffer for another. */
  lemma AllTaken(s: State, blocks: seq<nat>, i: nat)
    requires Distinct(blocks) && |blocks| == |s.bufs| && i < |s.bufs| && forall k | 0 <= k < |blocks| :: Present(s, blocks[k])
    ensures s.bufs[i].id.Some? && s.bufs[i].id.value in blocks
  {
    if s.bufs[i].id.None? || s.bufs[i].id.value !in blocks {
      var ids := seq(|s.bufs|, j requires 0 <= j < |s.bufs| => if s.bufs[j].id.Some? then s.bufs[j].id.value else 0);
      var rest := ids[..i] + ids[i + 1..];
      var within := SeqToSet(rest, 0);
      forall k | 0 <= k < |blocks| ensures blocks[k] in within {
        var j :| 0 <= j < |s.bufs| && s.bufs[j].id == Some(blocks[k]);
        assert rest[if j < i then j else j - 1] == blocks[k];
      }
      AllDifferent(blocks, 0, within);
      assert false;
    }
  }

  lemma AllPinned(l: Layout, r: Run, i: nat)
    requires IsRun(l, r) && r.last.FirstPin() == 0 && |r.last.lh| == |r.last.bufs| && i < |r.last.bufs|
    ensures r.last.bufs[i].id.Some? && r.last.Pinned(r.last.bufs[i].id.value)
  {
    hide IsRun;
    LogOk(l, r);
    forall k | 0 <= k < |r.last.lh| ensures Present(r.last, r.last.lh[k]) {
      LoggedThere(l, r, k);
    }
    AllTaken(r.last, r.last.lh, i);
  }

  lemma LoggedThere(l: Layout, r: Run, k: nat)
    requires IsRun(l, r) && r.last.FirstPin() == 0 && k < |r.last.lh|
    ensures r.last.Pinned(r.last.lh[k]) && Present(r.last, r.last.lh[k])
  {
    hide IsRun;
    PinnedThere(l, r, r.last.lh[k]);
  }

  lemma Ended(l: Layout, r: Run, p: nat) returns (q: Run)
    requires IsRun(l, r) && r.last.phase == Idle && p in r.last.ops && Unused(r.last) && r.last.lh != []
    ensures IsRun(l, q) && InBudget(q) == InBudget(r)
    ensures q.last == r.last.(ops := r.last.ops - {p}, phase := if r.last.ops == {p} then Copying(0) else Idle)
  {
    hide IsRun;
    forall i | 0 <= i < |r.last.bufs| ensures !r.last.bufs[i].scratch {
      NoScratchIdle(l, r, i);
    }
    var t := r.last.(ops := r.last.ops - {p}, phase := if r.last.ops == {p} then Copying(0) else Idle);
    assert DataStep(l, r.last, EndOp(p), t);
    q := Took(l, r, EndOp(p), t);
  }

  /** Three operations log the first `k` blocks after the log, and a commit begins. */
  lemma CommitBegun(l: Layout, n: nat, d: nat, k: nat) returns (r: Run)
    requires 1 <= k <= n && k <= Admission.Capacity(l.size) && Home(l) + k <= d <= UINT_MAX1
    ensures IsRun(l, r) && InBudget(r) && r.last.phase == Copying(0) && r.last.lh == seq(k, i => Home(l) + i) && Unused(r.last)
    ensures |r.last.bufs| == n && |r.last.disk| == d
  {
    hide IsRun;
    r := FillUp(l, n, d, k);
    r := Ended(l, r, 0);
    assert r.last.ops == {1, 2};
    r := Ended(l, r, 1);
    assert r.last.ops == {2};
    r := Ended(l, r, 2);
  }

  /** With no more buffers than the log has room for, operations within their
      budgets can bring a commit to a point where it cannot go on. */
  lemma StuckReached(l: Layout, n: nat, d: nat) returns (r: Run)
    requires 1 <= n <= Admission.Capacity(l.size) && Home(l) + n <= d <= UINT_MAX1
    ensures IsRun(l, r) && InBudget(r) && Stuck(r.last) && |r.last.bufs| == n && |r.last.disk| == d
  {
    hide IsRun;
    r := CommitBegun(l, n, d, n);
    forall i | 0 <= i < |r.last.bufs| ensures r.last.bufs[i].id.Some? && r.last.Pinned(r.last.bufs[i].id.value) {
      AllPinned(l, r, i);
    }
  }

  // ---------------------------------------------------------------- exactly when

  ghost predicate CanEnd(l: Layout, r: Run) {
    exists q :: IsRun(l, q) && Continues(r, q) && q.last.phase == Idle
  }

  /** In every run within budget on `n` buffers and a disk of `d` blocks, a commit
      can always be brought to its end. */
  ghost predicate AlwaysEnds(l: Layout, n: nat, d: nat) {
    forall r | IsRun(l, r) && InBudget(r) && |r.last.bufs| == n && |r.last.disk| == d && Committing(r.last) :: CanEnd(l, r)
  }

  lemma {:induction false} ExtendsContinues(r: Run, q: Run)
    requires Extends(r, q)
    ensures Continues(r, q)
  {
    if q != r {
      ExtendsContinues(r, q.before);
    }
  }

  /** A commit can always be brought to its end if and only if there are more
      buffers than the log can hold blocks. */
  lemma AlwaysEndsIff(l: Layout, n: nat, d: nat)
    requires 1 <= n && 1 <= l.size && Home(l) + LOGSIZE <= d <= UINT_MAX1
    ensures AlwaysEnds(l, n, d) <==> n > Admission.Capacity(l.size)
  {
    hide IsRun, InBudget, Stuck, Continues, Extends;
    if n > Admission.Capacity(l.size) {
      forall r | IsRun(l, r) && InBudget(r) && |r.last.bufs| == n && |r.last.disk| == d && Committing(r.last) ensures CanEnd(l, r) {
        LogOk(l, r);
        var q := CommitEnds(l, r);
        ExtendsContinues(r, q);
      }
    } else {
      var r := StuckReached(l, n, d);
      NeverEnds(l, r);
    }
  }

  lemma NeverEnds(l: Layout, r: Run)
    requires IsRun(l, r) && Stuck(r.last)
    ensures Committing(r.last) && !CanEnd(l, r)
  {
    hide IsRun, Continues;
    forall q | IsRun(l, q) && Continues(r, q) ensures q.last.phase != Idle {
      StuckForever(l, r, q);
    }
  }

  // ---------------------------------------------------------------- and never panics

  /** The log block that `commit` reads next; it copies blocks from or to pinned ones. */
  function NextRead(l: Layout, s: State): Option<nat> {
    match s.phase
    case Copying(t) => Some(if t < |s.lh| then l.start + t + 1 else l.start)
    case Installing(t) => Some(if t < |s.lh| then l.start + t + 1 else l.start)
    case _ => None
  }

  /** `bget` for that block does not panic: the block is cached or a buffer is free. */
  predicate Finds(l: Layout, s: State) {
    NextRead(l, s).Some? ==> Present(s, NextRead(l, s).value) || exists j :: 0 <= j < |s.bufs| && s.bufs[j].refcnt == 0
  }

  /** The blocks in use that are not pinned. */
  function InUse(s: State): set<nat> {
    set j | 0 <= j < |s.bufs| && s.bufs[j].users != {} && s.bufs[j].id.Some? && !s.Pinned(s.bufs[j].id.value) :: s.bufs[j].id.value
  }

  /** In every run within budget the reads of a commit find a buffer while
      processes use at most `h` blocks besides those in the log. */
  ghost predicate AlwaysFinds(l: Layout, n: nat, d: nat, h: nat) {
    forall r | IsRun(l, r) && InBudget(r) && |r.last.bufs| == n && |r.last.disk| == d && |InUse(r.last)| <= h :: Finds(l, r.last)
  }

  lemma EnoughFinds(l: Layout, r: Run)
    requires IsRun(l, r) && |r.last.bufs| > Admission.Capacity(l.size) + |InUse(r.last)|
    ensures Finds(l, r.last)
  {
    hide IsRun;
    LogOk(l, r);
    PhaseOk(l, r);
    forall j | 0 <= j < |r.last.bufs| && r.last.bufs[j].users != {} && r.last.bufs[j].id.Some?
      ensures r.last.bufs[j].id.value in InUse(r.last) || r.last.Pinned(r.last.bufs[j].id.value)
    {
    }
    var k := FreeBuffer(l, r, InUse(r.last));
  }

  predicate TakenBy(s: State, b: nat) {
    exists j :: 0 <= j < |s.bufs| && s.bufs[j].id == Some(b) && s.bufs[j].users != {}
  }

  /** A commit has begun with `k` blocks logged, and the next `c` are being read. */
  predicate Reading(l: Layout, s: State, k: nat, c: nat) {
    && s.phase == Copying(0) && s.lh == seq(k, i => Home(l) + i)
    && (forall j | 0 <= j < |s.bufs| && s.bufs[j].users != {} :: s.bufs[j].id.Some? && Home(l) + k <= s.bufs[j].id.value < Home(l) + k + c)
    && (forall b | Home(l) + k <= b < Home(l) + k + c :: TakenBy(s, b))
  }

  lemma {:induction false} Readers(l: Layout, n: nat, d: nat, k: nat, c: nat) returns (r: Run)
    requires 1 <= k && k + c <= n && k <= Admission.Capacity(l.size) && Home(l) + k + c <= d <= UINT_MAX1
    ensures IsRun(l, r) && InBudget(r) && Reading(l, r.last, k, c) && |r.last.bufs| == n && |r.last.disk| == d
    decreases c
  {
    hide IsRun;
    if c == 0 {
      r := CommitBegun(l, n, d, k);
    } else {
      var q := Readers(l, n, d, k, c - 1);
      r := OneReader(l, q, k, c - 1);
    }
  }

  lemma OneReader(l: Layout, r: Run, k: nat, c: nat) returns (q: Run)
    requires IsRun(l, r) && Reading(l, r.last, k, c) && k + c < |r.last.bufs| && Home(l) + k + c < |r.last.disk|
    ensures IsRun(l, q) && InBudget(q) == InBudget(r) && Reading(l, q.last, k, c + 1)
    ensures |q.last.bufs| == |r.last.bufs| && |q.last.disk| == |r.last.disk|
  {
    hide IsRun, Extends, Numbers;
    var s, b := r.last, Home(l) + k + c;
    assert Room(s, Numbers(Home(l) + k, c));
    var i;
    q, i := Bread(l, r, 3, b, Numbers(Home(l) + k, c));
    ExtendsBudget(r, q);
    OneTaken(l, r, q, i, b);
    forall x | Home(l) + k <= x < b + 1 ensures TakenBy(q.last, x) {
      if x < b {
        assert TakenBy(s, x);
        var j :| 0 <= j < |s.bufs| && s.bufs[j].id == Some(x) && s.bufs[j].users != {};
        assert j != i ==> q.last.bufs[j] == s.bufs[j];
      }
    }
  }

  lemma OneTaken(l: Layout, r: Run, q: Run, i: nat, b: nat)
    requires IsRun(l, q) && i < |r.last.bufs| && Got(r.last, q.last, 3, b, i)
    ensures q.last.bufs[i].id == Some(b) && q.last.bufs[i].users != {} && TakenBy(q.last, b)
  {
    hide IsRun;
    BufOk(l, q, i);
  }

  /** With every buffer pinned or being read, the commit's first read finds none. */
  lemma NoneFound(l: Layout, r: Run, k: nat, c: nat)
    requires IsRun(l, r) && Reading(l, r.last, k, c) && 1 <= k && k + c == |r.last.bufs|
    ensures !Finds(l, r.last) && |InUse(r.last)| <= c
  {
    hide IsRun, Numbers;
    LogOk(l, r);
    var s := r.last;
    var blocks := seq(k + c, x requires 0 <= x => Home(l) + x);
    forall x | 0 <= x < |blocks| ensures Present(s, blocks[x]) {
      if x < k {
        LoggedThere(l, r, x);
      } else {
        assert TakenBy(s, blocks[x]);
      }
    }
    forall j | 0 <= j < |s.bufs| ensures s.bufs[j].id.Some? && !l.InLog(s.bufs[j].id.value) && s.bufs[j].refcnt > 0 {
      AllTaken(s, blocks, j);
      BusyBuffer(l, r, k, c, j);
    }
    SubsetSize(InUse(s), Numbers(Home(l) + k, c));
  }

  lemma BusyBuffer(l: Layout, r: Run, k: nat, c: nat, j: nat)
    requires IsRun(l, r) && Reading(l, r.last, k, c) && j < |r.last.bufs| && r.last.bufs[j].id.Some?
    requires Home(l) <= r.last.bufs[j].id.value < Home(l) + k + c
    ensures r.last.bufs[j].refcnt > 0
  {
    hide IsRun;
    var s := r.last;
    BufOk(l, r, j);
    var x := s.bufs[j].id.value - Home(l);
    if x < k {
      LoggedThere(l, r, x);
    } else {
      assert TakenBy(s, s.bufs[j].id.value);
      var i :| 0 <= i < |s.bufs| && s.bufs[i].id == s.bufs[j].id && s.bufs[i].users != {};
      OneBuffer(l, r, i, j);
    }
  }

  /** The reads of a commit never panic if and only if the buffers outnumber what
      the log can hold and what other processes use at the time. */
  lemma AlwaysFindsIff(l: Layout, n: nat, d: nat, h: nat)
    requires 1 <= n && 2 <= l.size && Home(l) + LOGSIZE + n <= d <= UINT_MAX1
    ensures AlwaysFinds(l, n, d, h) <==> n > Admission.Capacity(l.size) + h
  {
    hide IsRun, InBudget, Finds, InUse, Reading;
    var capacity := Admission.Capacity(l.size);
    if n > capacity + h {
      forall r | IsRun(l, r) && InBudget(r) && |r.last.bufs| == n && |r.last.disk| == d && |InUse(r.last)| <= h ensures Finds(l, r.last) {
        EnoughFinds(l, r);
      }
    } else {
      var k := if n < capacity then n else capacity;
      var r := Readers(l, n, d, k, n - k);
      NoneFound(l, r, k, n - k);
    }
  }

  /** With the NBUF buffers of the source a commit can always end exactly when the
      log has at most LOGSIZE blocks, as mkfs makes it; and `log_write` never
      panics within budget exactly when it has more.  So no size of the log gives
      both; with one more buffer every size lets commits end. */
  lemma NoSizeFits(l: Layout, d: nat)
    requires 1 <= l.size && Home(l) + LOGSIZE <= d <= UINT_MAX1
    ensures AlwaysEnds(l, NBUF, d) <==> l.size <= LOGSIZE
    ensures AlwaysEnds(l, NBUF, d) <==> !Admission.NeverPanics(l.size)
    ensures AlwaysEnds(l, NBUF + 1, d)
  {
    hide AlwaysEnds;
    AlwaysEndsIff(l, NBUF, d);
    AlwaysEndsIff(l, NBUF + 1, d);
    Admission.NewBlockNeverPanics(l.size);
  }

  /** `bget` panics rather than wait for a buffer.  A log so large that `log_write`
      never panics lets a commit run into that by itself; with the LOGSIZE blocks of
      mkfs it takes one block in use by another process, and does not happen without
      one.  Each further buffer would allow for one more. */
  lemma OneReaderPanics(l: Layout, d: nat, h: nat)
    requires 2 <= l.size && Home(l) + LOGSIZE + NBUF + h + 1 <= d <= UINT_MAX1
    ensures Admission.NeverPanics(l.size) ==> !AlwaysFinds(l, NBUF, d, h)
    ensures l.size == LOGSIZE ==> (AlwaysFinds(l, NBUF, d, h) <==> h == 0)
    ensures AlwaysFinds(l, NBUF + h + 1, d, h)
  {
    hide AlwaysFinds;
    Admission.NewBlockNeverPanics(l.size);
    AlwaysFindsIff(l, NBUF, d, h);
    AlwaysFindsIff(l, NBUF + h + 1, d, h);
  }
}
