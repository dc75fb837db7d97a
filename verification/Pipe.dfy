/** The ring buffer of kernel/pipe.c, and who sleeps on it. */
module Pipe {
  import opened Bytes
  import opened Sequences
  import WrappedRing

  const PIPESIZE: nat := 1024

  /** How a stretch of `pipewrite` or `piperead` that holds the lock ends. */
  datatype Outcome = Slept | Aborted | Done

  /** Everything ever written, what readers have taken of it, and the open ends. */
  datatype Abs = Abs(written: seq<byte>, taken: seq<byte>, readopen: bool, writeopen: bool) {
    function Held(): int { |written| - |taken| }
    predicate Empty() { Held() == 0 }
    predicate Full() { Held() == PIPESIZE }
    /** Readers got the first bytes written, in order, and the ring holds the rest. */
    predicate Ok() { taken <= written && Held() <= PIPESIZE }
  }

  // ---------------------------------------------------------------- one critical section

  /** Where a writer stops that has stored `i` of `n` bytes: the process counts
      as killed once `killedFrom` bytes are stored, and only `|src|` bytes can be
      read from user memory. */
  function WriteStop(a: Abs, src: seq<byte>, i: nat, n: int, killedFrom: nat): (stop: nat)
    requires a.Ok() && i <= |src|
    ensures i <= stop <= |src| && stop - i <= PIPESIZE - a.Held()
  {
    if i >= n || !a.readopen || killedFrom <= i then i
    else Min(Min(n, killedFrom), Min(|src|, i + PIPESIZE - a.Held()))
  }

  function Stored(a: Abs, src: seq<byte>, i: nat, stop: nat): (r: Abs)
    requires i <= stop <= |src|
  {
    a.(written := a.written + src[i..stop])
  }

  /** How the writer's section ends once it has stopped. */
  function WriteOutcome(a: Abs, i: nat, n: int, killedFrom: nat): Outcome {
    if i >= n then Done
    else if !a.readopen || killedFrom <= i then Aborted
    else if a.Full() then Slept
    else Done
  }

  function ReadOutcome(a: Abs, killed: bool): Outcome {
    if !a.Empty() || !a.writeopen then Done else if killed then Aborted else Slept
  }

  /** How many bytes a reader gets that can store `room`. */
  function ReadCount(a: Abs, n: int, room: nat): (k: nat)
    requires a.Ok()
    ensures k <= a.Held() && k <= room
  {
    if n < 0 then 0 else Min(Min(n, room), a.Held())
  }

  /** One more byte leaves the ring when it cannot be stored. */
  function Lost(a: Abs, n: int, room: nat): (k: nat)
    requires a.Ok()
    ensures ReadCount(a, n, room) + k <= a.Held()
  {
    if room < n && room < a.Held() then 1 else 0
  }

  function Taken(a: Abs, k: nat): (r: Abs)
    requires a.Ok() && k <= a.Held()
    ensures r.Ok() && r.taken == a.taken + a.written[|a.taken|..|a.taken| + k]
  {
    var t := a.taken + a.written[|a.taken|..|a.taken| + k];
    a.(taken := t)
  }

  /** The next `k` bytes in the ring. */
  function Front(a: Abs, k: nat): seq<byte>
    requires a.Ok() && k <= a.Held()
  {
    a.written[|a.taken|..|a.taken| + k]
  }

  lemma TakenNone(a: Abs)
    requires a.Ok()
    ensures Taken(a, 0) == a && Front(a, 0) == []
  {
  }

  lemma TakenHeld(a: Abs, k: nat)
    requires a.Ok() && k <= a.Held()
    ensures Taken(a, k).Held() == a.Held() - k && Taken(a, k).written == a.written && |Taken(a, k).taken| == |a.taken| + k
  {
  }

  lemma TakenMore(a: Abs, k: nat)
    requires a.Ok() && k < a.Held()
    ensures Taken(a, k).Held() == a.Held() - k && Taken(Taken(a, k), 1) == Taken(a, k + 1)
    ensures Front(a, k + 1) == Front(a, k) + [a.written[|a.taken| + k]]
  {
  }

  /** A read that gets nothing though it asked for something it could store
      finds the pipe drained and its write end closed. */
  lemma EndOfFile(a: Abs, n: int, room: nat, killed: bool)
    requires a.Ok() && n > 0 && room > 0 && ReadOutcome(a, killed) == Done
    ensures ReadCount(a, n, room) == 0 <==> a.Empty() && !a.writeopen
  {
  }

  // ---------------------------------------------------------------- counters that wrap

  /** The difference of the counters, though both wrap, tells empty and full. */
  lemma Counters(w: nat, r: nat)
    requires r <= w <= r + PIPESIZE
    ensures r % UINT_MAX1 == w % UINT_MAX1 <==> w == r
    ensures w % UINT_MAX1 == (r % UINT_MAX1 + PIPESIZE) % UINT_MAX1 <==> w == r + PIPESIZE
  {
    var d := w - r;
    WrappedRing.Wrap(r, d, UINT_MAX1);
    WrappedRing.Wrap(r, PIPESIZE, UINT_MAX1);
  }

  class Ring {
    const data: array<byte>
    var nread: nat
    var nwrite: nat
    var readopen: bool
    var writeopen: bool
    ghost var written: seq<byte>
    ghost var taken: seq<byte>

    ghost function Now(): Abs
      reads this
    {
      Abs(written, taken, readopen, writeopen)
    }

    ghost predicate Valid()
      reads this, data
    {
      && data.Length == PIPESIZE && Now().Ok()
      && nread == |taken| % UINT_MAX1 && nwrite == |written| % UINT_MAX1
      && forall k | |taken| <= k < |written| :: data[k % PIPESIZE] == written[k]
    }

    /** `pipealloc`. */
    constructor ()
      ensures Valid() && Now() == Abs([], [], true, true)
    {
      data := new byte[PIPESIZE];
      nread, nwrite, readopen, writeopen := 0, 0, true, true;
      written, taken := [], [];
    }

    /** Store one byte: `pi->data[pi->nwrite++ % PIPESIZE] = ch`. */
    method Push(ch: byte)
      requires Valid() && !Now().Full()
      modifies this`nwrite, this`written, data
      ensures Valid() && written == old(written) + [ch]
    {
      WrappedRing.SlotOf(|written|, PIPESIZE, UINT_MAX1 / PIPESIZE);
      ghost var w := |written|;
      forall k | |taken| <= k < w ensures k % PIPESIZE != w % PIPESIZE {
        WrappedRing.SlotsDiffer(k, w, PIPESIZE);
      }
      data[nwrite % PIPESIZE] := ch;
      nwrite := (nwrite + 1) % UINT_MAX1;
      written := written + [ch];
      WrappedRing.Wrap(w, 1, UINT_MAX1);
    }

    /** Take one byte: `ch = pi->data[pi->nread++ % PIPESIZE]`. */
    method Pop() returns (ch: byte)
      requires Valid() && !Now().Empty()
      modifies this`nread, this`taken
      ensures Valid() && ch == written[|old(taken)|] && Now() == Taken(old(Now()), 1)
    {
      WrappedRing.SlotOf(|taken|, PIPESIZE, UINT_MAX1 / PIPESIZE);
      ch := data[nread % PIPESIZE];
      nread := (nread + 1) % UINT_MAX1;
      WrappedRing.Wrap(|taken|, 1, UINT_MAX1);
      taken := taken + [ch];
    }

    /** A stretch of `pipewrite` from taking the lock to giving it up. */
    method WriteSection(src: seq<byte>, from: nat, n: int, killedFrom: nat) returns (i: nat, out: Outcome)
      requires Valid() && from <= |src|
      modifies this`nwrite, this`written, data
      ensures Valid()
      ensures i == WriteStop(old(Now()), src, from, n, killedFrom)
      ensures Now() == Stored(old(Now()), src, from, i) && out == WriteOutcome(Now(), i, n, killedFrom)
    {
      i := from;
      assert src[from..from] == [];
      while i < n
        invariant Valid() && from <= i <= WriteStop(old(Now()), src, from, n, killedFrom)
        invariant written == old(written) + src[from..i]
        decreases n - i
      {
        if !readopen || killedFrom <= i {
          return i, Aborted;
        }
        Counters(|written|, |taken|);
        if nwrite == (nread + PIPESIZE) % UINT_MAX1 {
          return i, Slept;
        }
        if i == |src| {
          return i, Done;
        }
        Push(src[i]);
        assert src[from..i] + [src[i]] == src[from..i + 1];
        i := i + 1;
      }
      out := Done;
    }

    /** A stretch of `piperead` from taking the lock to giving it up. */
    method ReadSection(n: int, room: nat, killed: bool) returns (got: seq<byte>, out: Outcome)
      requires Valid()
      modifies this`nread, this`taken
      ensures Valid() && out == ReadOutcome(old(Now()), killed)
      ensures out != Done ==> got == [] && Now() == old(Now())
      ensures out == Done ==>
                var k := ReadCount(old(Now()), n, room);
                && got == Front(old(Now()), k)
                && Now() == Taken(old(Now()), k + Lost(old(Now()), n, room))
    {
      got := [];
      Counters(|written|, |taken|);
      if nread == nwrite && writeopen {
        if killed {
          return got, Aborted;
        }
        return got, Slept;
      }
      got := Drain(n, room);
      out := Done;
    }

    /** The loop of `piperead`. */
    method Drain(n: int, room: nat) returns (got: seq<byte>)
      requires Valid()
      modifies this`nread, this`taken
      ensures Valid()
      ensures var a := old(Now()); var k := ReadCount(a, n, room);
              got == Front(a, k) && Now() == Taken(a, k + Lost(a, n, room))
    {
      hide Taken;
      got := [];
      ghost var a := Now();
      TakenNone(a);
      var i := 0;
      while i < n
        invariant Valid() && (i == 0 || i <= n) && i <= room && i <= a.Held()
        invariant Now() == Taken(a, i) && got == Front(a, i)
        decreases n - i
      {
        Counters(|written|, |taken|);
        TakenHeld(a, i);
        if nread == nwrite {
          break;
        }
        TakenMore(a, i);
        var ch := Pop();
        if i == room {
          break;
        }
        got := got + [ch];
        i := i + 1;
      }
    }

    /** `pipeclose`; the result says that the pipe's memory is given back. */
    method Close(writable: bool) returns (freed: bool)
      requires Valid()
      modifies this`readopen, this`writeopen
      ensures Valid()
      ensures Now() == if writable then old(Now()).(writeopen := false) else old(Now()).(readopen := false)
      ensures freed <==> !readopen && !writeopen
    {
      if writable {
        writeopen := false;
      } else {
        readopen := false;
      }
      freed := !readopen && !writeopen;
    }
  }
}
