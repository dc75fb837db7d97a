/** Readers and writers of one pipe, asleep and awake (kernel/pipe.c). A step is
    a stretch that holds the pipe's lock; `sleep` gives the lock up and goes to
    sleep as one step. */
module PipeSleep {
  import opened Bytes
  import opened Pipe

  datatype Call = Writing(src: seq<byte>, i: nat, n: int) | Reading(n: int)

  /** `readers` and `writers` are the processes asleep on `&nread` and `&nwrite`;
      `delivered` is what reads have returned, `lost` how many bytes could not be
      stored. */
  datatype St = St(pipe: Abs, calls: map<nat, Call>, readers: set<nat>, writers: set<nat>, killed: set<nat>,
                   delivered: seq<byte>, lost: nat)

  datatype Action =
    | StartWrite(p: nat, src: seq<byte>, n: int)
    | StartRead(p: nat, n: int)
    | Write(p: nat, killedFrom: nat)
    | Read(p: nat, room: nat, killed: bool)
    | CloseWrite
    | CloseRead
    | Kill(p: nat)

  predicate Init(s: St) {
    s == St(Abs([], [], true, true), map[], {}, {}, {}, [], 0)
  }

  predicate WriteStep(s: St, p: nat, killedFrom: nat, t: St)
    requires s.pipe.Ok()
  {
    && p in s.calls && s.calls[p].Writing? && p !in s.writers && s.calls[p].i <= |s.calls[p].src|
    && var c := s.calls[p];
    && (p in s.killed ==> killedFrom <= c.i)
    && var i := WriteStop(s.pipe, c.src, c.i, c.n, killedFrom);
    && var pipe := Stored(s.pipe, c.src, c.i, i);
    && match WriteOutcome(pipe, i, c.n, killedFrom)
       case Slept => t == s.(pipe := pipe, calls := s.calls[p := c.(i := i)], readers := {}, writers := s.writers + {p})
       case Aborted => t == s.(pipe := pipe, calls := s.calls - {p}, killed := if pipe.readopen then s.killed + {p} else s.killed)
       case Done => t == s.(pipe := pipe, calls := s.calls - {p}, readers := {})
  }

  predicate ReadStep(s: St, p: nat, room: nat, killed: bool, t: St)
    requires s.pipe.Ok()
  {
    && p in s.calls && s.calls[p].Reading? && p !in s.readers && (p in s.killed ==> killed)
    && var n := s.calls[p].n;
    && match ReadOutcome(s.pipe, killed)
       case Slept => t == s.(readers := s.readers + {p})
       case Aborted => t == s.(calls := s.calls - {p})
       case Done =>
         var k := ReadCount(s.pipe, n, room);
         var lost := Lost(s.pipe, n, room);
         t == s.(pipe := Taken(s.pipe, k + lost), calls := s.calls - {p}, writers := {},
                 delivered := s.delivered + Front(s.pipe, k), lost := s.lost + lost)
  }

  /** An end is closed when no call can be using it. */
  predicate Next(s: St, a: Action, t: St) {
    && s.pipe.Ok()
    && match a
       case StartWrite(p, src, n) => p !in s.calls && s.pipe.writeopen && t == s.(calls := s.calls[p := Writing(src, 0, n)])
       case StartRead(p, n) => p !in s.calls && s.pipe.readopen && t == s.(calls := s.calls[p := Reading(n)])
       case Write(p, killedFrom) => WriteStep(s, p, killedFrom, t)
       case Read(p, room, killed) => ReadStep(s, p, room, killed, t)
       case CloseWrite =>
         && (forall p | p in s.calls :: !s.calls[p].Writing?)
         && t == s.(pipe := s.pipe.(writeopen := false), readers := {})
       case CloseRead =>
         && (forall p | p in s.calls :: !s.calls[p].Reading?)
         && t == s.(pipe := s.pipe.(readopen := false), writers := {})
       case Kill(p) => t == s.(killed := s.killed + {p}, readers := s.readers - {p}, writers := s.writers - {p})
  }

  // ---------------------------------------------------------------- bytes

  predicate Inv(s: St) {
    && s.pipe.Ok()
    && (forall p | p in s.readers :: p in s.calls && s.calls[p].Reading?)
    && (forall p | p in s.writers :: p in s.calls && s.calls[p].Writing?)
    && (forall p | p in s.calls && s.calls[p].Writing? :: s.calls[p].i <= |s.calls[p].src|)
    && |s.pipe.taken| == |s.delivered| + s.lost
    && (s.lost == 0 ==> s.delivered == s.pipe.taken)
  }

  lemma StepKeepsInv(s: St, a: Action, t: St)
    requires Inv(s) && Next(s, a, t)
    ensures Inv(t)
  {
    hide WriteStep, ReadStep;
    match a
    case Write(p, killedFrom) => WriteKeepsInv(s, p, killedFrom, t);
    case Read(p, room, killed) => ReadKeepsInv(s, p, room, killed, t);
    case _ =>
  }

  lemma WriteKeepsInv(s: St, p: nat, killedFrom: nat, t: St)
    requires Inv(s) && WriteStep(s, p, killedFrom, t)
    ensures Inv(t)
  {
    var c := s.calls[p];
    var i := WriteStop(s.pipe, c.src, c.i, c.n, killedFrom);
    assert Stored(s.pipe, c.src, c.i, i).Ok();
  }

  lemma ReadKeepsInv(s: St, p: nat, room: nat, killed: bool, t: St)
    requires Inv(s) && ReadStep(s, p, room, killed, t)
    ensures Inv(t)
  {
    var k := ReadCount(s.pipe, s.calls[p].n, room);
    assert Front(s.pipe, k) == s.pipe.written[|s.pipe.taken|..|s.pipe.taken| + k];
  }

  // ---------------------------------------------------------------- sleepers

  /** A sleeping reader has nothing to read and may still get something; a
      sleeping writer has no room and may still be read. */
  predicate Awake(s: St) {
    && (s.readers != {} ==> s.pipe.Empty() && s.pipe.writeopen)
    && (s.writers != {} ==> s.pipe.Full() && s.pipe.readopen)
  }

  /** A writer is killed after it stored a byte and before it has stored all,
      while a reader sleeps. */
  predicate KilledMidWrite(s: St, a: Action) {
    && a.Write? && a.p in s.calls && s.calls[a.p].Writing?
    && var c := s.calls[a.p];
    && s.readers != {} && s.pipe.readopen
    && c.i < a.killedFrom < c.n && a.killedFrom <= |c.src| && a.killedFrom <= c.i + PIPESIZE
  }

  /** Every other step leaves nobody asleep who could go on, and this one does not. */
  lemma StepAwakeIff(s: St, a: Action, t: St)
    requires Inv(s) && Awake(s) && Next(s, a, t)
    ensures Awake(t) <==> !KilledMidWrite(s, a)
  {
    match a
    case Write(p, killedFrom) => WriteAwakeIff(s, p, killedFrom, t);
    case _ =>
  }

  lemma WriteAwakeIff(s: St, p: nat, killedFrom: nat, t: St)
    requires Inv(s) && Awake(s) && WriteStep(s, p, killedFrom, t)
    ensures Awake(t) <==> !KilledMidWrite(s, Write(p, killedFrom))
  {
    var c := s.calls[p];
    var i := WriteStop(s.pipe, c.src, c.i, c.n, killedFrom);
    assert |t.pipe.written| == |s.pipe.written| + (i - c.i);
  }

  // ---------------------------------------------------------------- runs

  datatype Run = Start(last: St) | Then(before: Run, a: Action, last: St)

  predicate IsRun(r: Run) {
    match r
    case Start(s) => Init(s)
    case Then(q, a, s) => IsRun(q) && Next(q.last, a, s)
  }

  predicate NoneKilledMidWrite(r: Run) {
    match r
    case Start(s) => true
    case Then(q, a, s) => NoneKilledMidWrite(q) && !KilledMidWrite(q.last, a)
  }

  lemma {:induction false} RunInv(r: Run)
    requires IsRun(r)
    ensures Inv(r.last)
  {
    match r
    case Start(s) =>
    case Then(q, a, s) =>
      RunInv(q);
      StepKeepsInv(q.last, a, s);
  }

  /** In every run, what readers took is the beginning of what was written, the
      ring holds the rest, and all of it was delivered unless a store failed. */
  lemma Delivered(r: Run)
    requires IsRun(r)
    ensures r.last.pipe.taken <= r.last.pipe.written && |r.last.pipe.written| <= |r.last.pipe.taken| + PIPESIZE
    ensures r.last.lost == 0 ==> r.last.delivered <= r.last.pipe.written
  {
    RunInv(r);
  }

  /** Unless a writer was killed in the middle of a write, nobody sleeps who
      could go on, and a reader and a writer never sleep at once. */
  lemma {:induction false} RunAwake(r: Run)
    requires IsRun(r) && NoneKilledMidWrite(r)
    ensures Awake(r.last) && (r.last.readers == {} || r.last.writers == {})
  {
    match r
    case Start(s) =>
    case Then(q, a, s) =>
      RunAwake(q);
      RunInv(q);
      StepAwakeIff(q.last, a, s);
  }

  /** A writer killed after its first byte leaves a reader asleep on a pipe that
      holds that byte. */
  lemma LostWakeup() returns (r: Run)
    ensures IsRun(r) && !Awake(r.last) && r.last.readers == {1} && r.last.pipe.written == [7]
  {
    var s0 := St(Abs([], [], true, true), map[], {}, {}, {}, [], 0);
    var s1 := s0.(calls := map[1 := Reading(1)]);
    var s2 := s1.(readers := {1});
    var s3 := s2.(calls := map[1 := Reading(1)][2 := Writing([7, 8], 0, 2)]);
    var s4 := s3.(pipe := Abs([7], [], true, true), calls := s3.calls - {2}, killed := {2});
    r := Then(Then(Then(Then(Start(s0), StartRead(1, 1), s1), Read(1, 1, false), s2), StartWrite(2, [7, 8], 2), s3), Write(2, 1), s4);
    assert Next(s0, StartRead(1, 1), s1);
    assert Next(s1, Read(1, 1, false), s2);
    assert Next(s2, StartWrite(2, [7, 8], 2), s3);
    assert WriteStop(s3.pipe, [7, 8], 0, 2, 1) == 1;
    assert Stored(s3.pipe, [7, 8], 0, 1) == s4.pipe;
    assert Next(s3, Write(2, 1), s4);
  }
}
