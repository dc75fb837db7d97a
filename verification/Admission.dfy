/** Admission of file-system operations to the log (`begin_op`, `log_write`,
    `end_op` in kernel/log.c) as a step machine over every interleaving of the
    processes that use it. */
module Admission {
  import opened Params
  import opened Sequences

  /** An operation between `begin_op` and `end_op` may still add `left` blocks. */
  datatype Op = Idle | Active(left: nat)

  datatype State = State(lh: seq<nat>, outstanding: nat, committing: bool, ops: seq<Op>)

  datatype Action =
    | Begin(p: nat)
    | LogWrite(p: nat, b: nat)
    | End(p: nat)
    | CommitDone

  function Reserved(ops: seq<Op>): nat {
    if ops == [] then 0 else (if ops[0].Active? then ops[0].left else 0) + Reserved(ops[1..])
  }

  function Running(ops: seq<Op>): nat {
    if ops == [] then 0 else (if ops[0].Active? then 1 else 0) + Running(ops[1..])
  }

  predicate Init(s: State) {
    && s.lh == [] && s.outstanding == 0 && !s.committing
    && forall p | 0 <= p < |s.ops| :: s.ops[p] == Idle
  }

  /** The test `log_write` makes before it looks for an absorbed block. */
  predicate Panics(s: State, size: nat) {
    |s.lh| >= LOGSIZE || |s.lh| >= size - 1
  }

  /** Process `p` writes block `b` and stays within its MAXOPBLOCKS blocks. */
  predicate WithinBudget(s: State, p: nat, b: nat) {
    && p < |s.ops| && s.ops[p].Active?
    && (b in s.lh || s.ops[p].left > 0)
  }

  predicate Next(s: State, a: Action, t: State, size: nat) {
    match a
    case Begin(p) =>
      && p < |s.ops| && s.ops[p].Idle?
      && !s.committing
      && |s.lh| + (s.outstanding + 1) * MAXOPBLOCKS <= LOGSIZE
      && t == s.(outstanding := s.outstanding + 1, ops := s.ops[p := Active(MAXOPBLOCKS)])
    case LogWrite(p, b) =>
      && WithinBudget(s, p, b)
      && !Panics(s, size)
      && t == if b in s.lh then s
              else s.(lh := s.lh + [b], ops := s.ops[p := Active(s.ops[p].left - 1)])
    case End(p) =>
      && p < |s.ops| && s.ops[p].Active?
      && s.outstanding >= 1
      && t == s.(outstanding := s.outstanding - 1, ops := s.ops[p := Idle],
                 committing := s.outstanding == 1)
    case CommitDone =>
      && s.committing
      && t == s.(lh := [], committing := false)
  }

  /** A finite run: a first state and the steps taken since. */
  datatype Run = Start(last: State) | Then(before: Run, a: Action, last: State)

  predicate IsRun(run: Run, size: nat) {
    match run
    case Start(s) => Init(s)
    case Then(r, a, s) => IsRun(r, size) && Next(r.last, a, s, size)
  }

  ghost predicate Reachable(s: State, size: nat) {
    exists run :: IsRun(run, size) && run.last == s
  }

  /** Logged blocks and unspent reservations together never exceed the log. */
  predicate Inv(s: State) {
    && s.outstanding == Running(s.ops)
    && |s.lh| + Reserved(s.ops) <= LOGSIZE
    && (forall p | 0 <= p < |s.ops| && s.ops[p].Active? :: s.ops[p].left <= MAXOPBLOCKS)
    && Distinct(s.lh)
    && (s.committing ==> s.outstanding == 0)
    && (s.outstanding == 0 && !s.committing ==> s.lh == [])
  }

  lemma {:induction false} OpUpdated(ops: seq<Op>, p: nat, o: Op)
    requires p < |ops|
    ensures Reserved(ops[p := o]) + (if ops[p].Active? then ops[p].left else 0)
            == Reserved(ops) + (if o.Active? then o.left else 0)
    ensures Running(ops[p := o]) + (if ops[p].Active? then 1 else 0)
            == Running(ops) + (if o.Active? then 1 else 0)
  {
    if p > 0 {
      OpUpdated(ops[1..], p - 1, o);
      assert ops[p := o][1..] == ops[1..][p - 1 := o];
    }
  }

  /** An operation's own share is part of the whole reservation. */
  lemma {:induction false} OwnShare(ops: seq<Op>, p: nat)
    requires p < |ops| && ops[p].Active?
    ensures Reserved(ops) >= ops[p].left && Running(ops) >= 1
  {
    if p > 0 {
      OwnShare(ops[1..], p - 1);
    }
  }

  lemma {:induction false} ReservedBound(ops: seq<Op>)
    requires forall p | 0 <= p < |ops| && ops[p].Active? :: ops[p].left <= MAXOPBLOCKS
    ensures Reserved(ops) <= Running(ops) * MAXOPBLOCKS
  {
    if ops != [] {
      ReservedBound(ops[1..]);
    }
  }

  lemma {:induction false} AllIdle(ops: seq<Op>)
    requires forall p | 0 <= p < |ops| :: ops[p] == Idle
    ensures Reserved(ops) == 0 && Running(ops) == 0
  {
    if ops != [] {
      AllIdle(ops[1..]);
    }
  }

  lemma StepKeepsInv(s: State, a: Action, t: State, size: nat)
    requires Inv(s) && Next(s, a, t, size)
    ensures Inv(t)
  {
    match a
    case Begin(p) =>
      OpUpdated(s.ops, p, Active(MAXOPBLOCKS));
      ReservedBound(s.ops);
    case LogWrite(p, b) =>
      if b !in s.lh {
        OpUpdated(s.ops, p, Active(s.ops[p].left - 1));
        OwnShare(s.ops, p);
      }
    case End(p) =>
      OpUpdated(s.ops, p, Idle);
      OwnShare(s.ops, p);
    case CommitDone =>
  }

  lemma {:induction false} RunInv(run: Run, size: nat)
    requires IsRun(run, size)
    ensures Inv(run.last)
  {
    match run
    case Start(s) =>
      AllIdle(s.ops);
    case Then(r, a, s) =>
      RunInv(r, size);
      StepKeepsInv(r.last, a, s, size);
  }

  /** Every reachable state keeps the reservation invariant. */
  lemma ReachableInv(s: State, size: nat)
    requires Reachable(s, size)
    ensures Inv(s)
  {
    var run :| IsRun(run, size) && run.last == s;
    RunInv(run, size);
  }

  /** A commit starts only when no operation is in progress, and no operation
      starts until it is over. */
  lemma CommitExcludesOps(s: State, size: nat)
    requires Reachable(s, size) && s.committing
    ensures forall p | 0 <= p < |s.ops| :: s.ops[p].Idle?
    ensures forall p, t :: !Next(s, Begin(p), t, size)
  {
    ReachableInv(s, size);
    forall p | 0 <= p < |s.ops| ensures s.ops[p].Idle? {
      if s.ops[p].Active? {
        OwnShare(s.ops, p);
      }
    }
  }

  lemma Extend(s: State, a: Action, t: State, size: nat)
    requires Reachable(s, size) && Next(s, a, t, size)
    ensures Reachable(t, size)
  {
    var run :| IsRun(run, size) && run.last == s;
    assert IsRun(Then(run, a, t), size);
  }

  /** The first data block on a disk of 2000 blocks. */
  const FIRSTDATA := 46

  /** The state in which three operations have logged the first `k` data blocks
      between them, MAXOPBLOCKS each at most. */
  function Filled(k: nat): State
    requires k <= LOGSIZE
  {
    State(seq(k, i requires 0 <= i < k => FIRSTDATA + i), 3, false,
          [Active(if k <= MAXOPBLOCKS then MAXOPBLOCKS - k else 0),
           Active(if k <= MAXOPBLOCKS then MAXOPBLOCKS else if k <= 2 * MAXOPBLOCKS then 2 * MAXOPBLOCKS - k else 0),
           Active(if k <= 2 * MAXOPBLOCKS then MAXOPBLOCKS else LOGSIZE - k)])
  }

  lemma NothingLogged(size: nat)
    ensures Reachable(Filled(0), size)
  {
    var s0 := State([], 0, false, [Idle, Idle, Idle]);
    var s1 := s0.(outstanding := 1, ops := s0.ops[0 := Active(MAXOPBLOCKS)]);
    var s2 := s1.(outstanding := 2, ops := s1.ops[1 := Active(MAXOPBLOCKS)]);
    var s3 := s2.(outstanding := 3, ops := s2.ops[2 := Active(MAXOPBLOCKS)]);
    var r := Then(Then(Start(s0), Begin(0), s1), Begin(1), s2);
    assert IsRun(r, size);
    assert Next(s2, Begin(2), s3, size);
    assert IsRun(Then(r, Begin(2), s3), size);
    assert Filled(0).lh == s3.lh;
  }

  /** Any prefix of the log can be filled within budget, as long as
      `log_write` lets it. */
  lemma {:induction false} FilledReachable(k: nat, size: nat)
    requires k <= LOGSIZE && (k == 0 || k <= size - 1)
    ensures Reachable(Filled(k), size)
  {
    if k == 0 {
      NothingLogged(size);
    } else {
      FilledReachable(k - 1, size);
      var s := Filled(k - 1);
      var p := (k - 1) / MAXOPBLOCKS;
      assert FIRSTDATA + k - 1 !in s.lh;
      assert Filled(k).lh == s.lh + [FIRSTDATA + k - 1];
      assert Filled(k).ops == s.ops[p := Active(s.ops[p].left - 1)];
      Extend(s, LogWrite(p, FIRSTDATA + k - 1), Filled(k), size);
    }
  }

  ghost predicate NeverPanics(size: nat) {
    forall s, p, b | Reachable(s, size) && WithinBudget(s, p, b) && b !in s.lh :: !Panics(s, size)
  }

  /** `log_write` of a block that is not in the log yet, by an operation that
      keeps to its MAXOPBLOCKS, never panics in any interleaving: exactly when
      the on-disk log has at least LOGSIZE + 1 blocks. */
  lemma NewBlockNeverPanics(size: nat)
    ensures NeverPanics(size) <==> size >= LOGSIZE + 1
  {
    if size >= LOGSIZE + 1 {
      forall s, p, b | Reachable(s, size) && WithinBudget(s, p, b) && b !in s.lh
        ensures !Panics(s, size)
      {
        ReachableInv(s, size);
        OwnShare(s.ops, p);
      }
    } else {
      var k := if size == 0 then 0 else size - 1;
      FilledReachable(k, size);
      var s := Filled(k);
      assert WithinBudget(s, 2, FIRSTDATA + LOGSIZE) && FIRSTDATA + LOGSIZE !in s.lh && Panics(s, size);
    }
  }

  /** The layout that mkfs writes gives the log LOGSIZE blocks, one too few:
      thirty blocks are admitted and the thirtieth panics. */
  lemma MkfsLayoutCanPanic()
    ensures exists s, p, b :: Reachable(s, LOGSIZE) && WithinBudget(s, p, b) && b !in s.lh && Panics(s, LOGSIZE)
  {
    NewBlockNeverPanics(LOGSIZE);
  }

  /** How many blocks a log of `size` blocks ever holds. */
  function Capacity(size: nat): nat {
    if size == 0 then 0 else if size - 1 < LOGSIZE then size - 1 else LOGSIZE
  }

  lemma {:induction false} RunFits(run: Run, size: nat)
    requires IsRun(run, size)
    ensures |run.last.lh| <= Capacity(size)
  {
    match run
    case Start(s) =>
    case Then(r, a, s) =>
      RunFits(r, size);
  }

  /** In every reachable state of a log of any size `log_write` panics, whatever
      the block, exactly when the log is filled to its capacity. */
  lemma PanicsWhenFull(s: State, size: nat)
    requires Reachable(s, size)
    ensures Panics(s, size) <==> |s.lh| == Capacity(size)
  {
    var run :| IsRun(run, size) && run.last == s;
    RunFits(run, size);
  }

  /** The size test precedes the search for an absorbed block, so rewriting a
      block that is already logged panics too once the log is full, and some run
      reaches that exactly when the log can hold a block at all. */
  lemma AbsorbedWritePanics(size: nat)
    ensures forall s, p, b | Reachable(s, size) && WithinBudget(s, p, b) && b in s.lh ::
              Panics(s, size) <==> |s.lh| == Capacity(size)
    ensures (exists s, p, b :: Reachable(s, size) && WithinBudget(s, p, b) && b in s.lh && Panics(s, size)) <==> size >= 2
  {
    forall s | Reachable(s, size) ensures (Panics(s, size) <==> |s.lh| == Capacity(size)) && (size < 2 ==> s.lh == []) {
      PanicsWhenFull(s, size);
      var run :| IsRun(run, size) && run.last == s;
      RunFits(run, size);
    }
    if size >= 2 {
      FilledReachable(Capacity(size), size);
      var s := Filled(Capacity(size));
      assert s.lh[0] == FIRSTDATA;
      assert WithinBudget(s, 0, FIRSTDATA) && FIRSTDATA in s.lh && Panics(s, size);
    }
  }
}
