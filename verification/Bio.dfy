/** The buffer list of kernel/bio.c: a doubly linked ring in order of last use. */
module Bio {
  import opened Params
  import opened Sequences

  /** The index of `bcache.head`. */
  const HEAD: nat := NBUF

  /** A list of buffers, each at most once. */
  predicate IsOrder(order: seq<nat>) {
    Distinct(order) && forall i | 0 <= i < |order| :: order[i] < NBUF
  }

  /** The `i`-th stop on the way around the ring that starts and ends at the head. */
  function Stop(order: seq<nat>, i: nat): nat
    requires i <= |order| + 1
  {
    if i == 0 || i == |order| + 1 then HEAD else order[i - 1]
  }

  /** `next` and `prev` link the head and exactly the buffers of `order`, both ways, in one ring. */
  predicate Ring(next: seq<nat>, prev: seq<nat>, order: seq<nat>) {
    && |next| == |prev| == NBUF + 1 && IsOrder(order)
    && (forall i | 0 <= i <= |order| :: Follows(next, prev, Stop(order, i), Stop(order, i + 1)))
  }

  predicate Follows(next: seq<nat>, prev: seq<nat>, a: nat, b: nat) {
    a < |next| && b < |prev| && next[a] == b && prev[b] == a
  }

  /** `order` with the buffer at `j` taken out. */
  function Without(order: seq<nat>, j: nat): seq<nat>
    requires j < |order|
  {
    order[..j] + order[j + 1..]
  }

  lemma EmptyRing(next: seq<nat>, prev: seq<nat>, stamp: seq<nat>)
    requires |next| == |prev| == NBUF + 1 && next[HEAD] == HEAD && prev[HEAD] == HEAD && |stamp| == NBUF
    ensures Ring(next, prev, []) && ByRelease([], stamp)
  {
  }

  lemma Unlinked(next: seq<nat>, prev: seq<nat>, order: seq<nat>, j: nat)
    requires Ring(next, prev, order) && j < |order|
    ensures var b := order[j];
            && prev[b] < |next| && next[b] < |prev|
            && b !in Without(order, j)
            && Ring(next[prev[b] := next[b]], prev[next[b] := prev[b]], Without(order, j))
  {
    var b := order[j];
    var out := Without(order, j);
    assert Follows(next, prev, Stop(order, j), Stop(order, j + 1));
    assert Follows(next, prev, Stop(order, j + 1), Stop(order, j + 2));
    var next', prev' := next[prev[b] := next[b]], prev[next[b] := prev[b]];
    forall i | 0 <= i <= |out| ensures Follows(next', prev', Stop(out, i), Stop(out, i + 1)) {
      var at := if i <= j then i else i + 1;
      assert Follows(next, prev, Stop(order, at), Stop(order, at + 1));
      OneStop(order, at, j);
      OneStop(order, at + 1, j + 2);
    }
  }

  /** Stops before the last are distinct, and so are stops after the first. */
  lemma OneStop(order: seq<nat>, i: nat, j: nat)
    requires IsOrder(order) && i <= |order| + 1 && j <= |order| + 1
    ensures Stop(order, i) == Stop(order, j) ==> i == j || (i == 0 && j == |order| + 1) || (j == 0 && i == |order| + 1)
  {
  }

  lemma Pushed(next: seq<nat>, prev: seq<nat>, order: seq<nat>, b: nat)
    requires Ring(next, prev, order) && b < NBUF && b !in order
    ensures next[HEAD] < |prev| && Ring(next[b := next[HEAD]][HEAD := b], prev[b := HEAD][next[HEAD] := b], [b] + order)
  {
    assert Follows(next, prev, Stop(order, 0), Stop(order, 1));
    var all := [b] + order;
    var next', prev' := next[b := next[HEAD]][HEAD := b], prev[b := HEAD][next[HEAD] := b];
    forall i | 0 <= i <= |all| ensures Follows(next', prev', Stop(all, i), Stop(all, i + 1)) {
      if i >= 2 {
        assert Follows(next, prev, Stop(order, i - 1), Stop(order, i));
        OneStop(order, i, 1);
      }
    }
  }

  /** More recently released buffers come first. */
  predicate ByRelease(order: seq<nat>, stamp: seq<nat>) {
    |stamp| == NBUF && IsOrder(order) && forall i, j | 0 <= i < j < |order| :: stamp[order[i]] > stamp[order[j]]
  }

  lemma StillByRelease(order: seq<nat>, stamp: seq<nat>, j: nat)
    requires ByRelease(order, stamp) && j < |order|
    ensures ByRelease(Without(order, j), stamp)
  {
  }

  lemma FirstByRelease(order: seq<nat>, stamp: seq<nat>, b: nat, clock: nat)
    requires ByRelease(order, stamp) && b < NBUF && b !in order && forall x | 0 <= x < NBUF :: stamp[x] <= clock
    ensures ByRelease([b] + order, stamp[b := clock + 1])
  {
  }

  /** At most one buffer holds a block of a device; unused buffers say device 0. */
  predicate OneCopy(dev: seq<nat>, blockno: seq<nat>) {
    && |dev| == |blockno| == NBUF
    && forall a, b | 0 <= a < b < NBUF && dev[a] != 0 :: dev[a] != dev[b] || blockno[a] != blockno[b]
  }

  lemma NoCopies(dev: seq<nat>, blockno: seq<nat>)
    requires |dev| == |blockno| == NBUF && forall b | 0 <= b < NBUF :: dev[b] == 0
    ensures OneCopy(dev, blockno)
  {
  }

  class BufferCache {
    var next: seq<nat>
    var prev: seq<nat>
    var dev: seq<nat>
    var blockno: seq<nat>
    var refcnt: seq<nat>
    var valid: seq<bool>

    /** All buffers, most recently used first. */
    ghost var order: seq<nat>
    /** When each buffer was last released by its last user, and the last such time. */
    ghost var stamp: seq<nat>
    ghost var clock: nat

    ghost predicate Valid()
      reads this
    {
      && Ring(next, prev, order) && (forall b | 0 <= b < NBUF :: b in order)
      && |refcnt| == |valid| == NBUF && OneCopy(dev, blockno)
      && ByRelease(order, stamp) && forall b | 0 <= b < NBUF :: stamp[b] <= clock
    }

    /** `binit`. */
    constructor ()
      ensures Valid() && (forall b | 0 <= b < NBUF :: refcnt[b] == 0 && dev[b] == 0)
    {
      var zeros := seq(NBUF, _ => 0);
      dev, blockno, refcnt, valid := zeros, zeros, zeros, seq(NBUF, _ => false);
      next, prev := seq(NBUF + 1, _ => HEAD), seq(NBUF + 1, _ => HEAD);
      order, stamp, clock := [], zeros, 0;
      new;
      hide IsOrder, OneCopy;
      EmptyRing(next, prev, stamp);
      var b := 0;
      while b < NBUF
        invariant 0 <= b <= NBUF
        invariant dev == blockno == refcnt == zeros && |valid| == NBUF
        invariant Ring(next, prev, order) && |order| == b && forall x | 0 <= x < NBUF :: x in order <==> x < b
        invariant ByRelease(order, stamp) && clock == b && forall x | 0 <= x < NBUF :: stamp[x] <= clock
      {
        PushFront(b);
        b := b + 1;
      }
      NoCopies(dev, blockno);
    }

    /** Some buffer holds the block. */
    ghost predicate Cached(d: nat, n: nat)
      requires Valid()
      reads this
    {
      exists b | 0 <= b < NBUF :: dev[b] == d && blockno[b] == n
    }

    /** The first loop of `bget`: the buffer of the block, or HEAD. */
    method Find(d: nat, n: nat) returns (b: nat)
      requires Valid()
      ensures b < NBUF ==> dev[b] == d && blockno[b] == n
      ensures b >= NBUF ==> !Cached(d, n)
    {
      assert Follows(next, prev, Stop(order, 0), Stop(order, 1));
      b := next[HEAD];
      ghost var i := 1;
      while b != HEAD
        invariant 1 <= i <= |order| + 1 && b == Stop(order, i)
        invariant forall j | 1 <= j < i :: dev[Stop(order, j)] != d || blockno[Stop(order, j)] != n
        decreases |order| + 1 - i
      {
        if dev[b] == d && blockno[b] == n {
          return;
        }
        assert Follows(next, prev, Stop(order, i), Stop(order, i + 1));
        b := next[b];
        i := i + 1;
      }
      OneStop(order, i, |order| + 1);
      forall x | 0 <= x < NBUF ensures dev[x] != d || blockno[x] != n {
        assert x in order;
        var j :| 0 <= j < |order| && order[j] == x;
        assert Stop(order, j + 1) == x;
      }
    }

    /** The second loop of `bget`: of the buffers nobody uses, the one that was
        released to zero first; HEAD when every buffer is in use. */
    method FindUnused() returns (b: nat)
      requires Valid()
      ensures b < NBUF ==> refcnt[b] == 0 && forall x | 0 <= x < NBUF && x != b && refcnt[x] == 0 :: stamp[b] < stamp[x]
      ensures b >= NBUF ==> forall x | 0 <= x < NBUF :: refcnt[x] > 0
    {
      assert Follows(next, prev, Stop(order, |order|), Stop(order, |order| + 1));
      b := prev[HEAD];
      ghost var i := |order|;
      while b != HEAD
        invariant 0 <= i <= |order| && b == Stop(order, i)
        invariant forall j | i < j <= |order| :: refcnt[Stop(order, j)] > 0
        decreases i
      {
        if refcnt[b] == 0 {
          forall x | 0 <= x < NBUF && x != b && refcnt[x] == 0 ensures stamp[b] < stamp[x] {
            assert x in order;
            var j :| 0 <= j < |order| && order[j] == x;
            assert Stop(order, j + 1) == x;
          }
          return;
        }
        assert Follows(next, prev, Stop(order, i - 1), Stop(order, i));
        b := prev[b];
        i := i - 1;
      }
      OneStop(order, i, 0);
      forall x | 0 <= x < NBUF ensures refcnt[x] > 0 {
        assert x in order;
        var j :| 0 <= j < |order| && order[j] == x;
        assert Stop(order, j + 1) == x;
      }
    }

    /** `bget`: the cached buffer, or the least recently released unused one,
        given to the block. The panic is `HEAD`. */
    method Bget(d: nat, n: nat) returns (b: nat)
      requires Valid()
      modifies this`dev, this`blockno, this`valid, this`refcnt
      ensures Valid()
      ensures b >= NBUF <==> !old(Cached(d, n)) && forall x | 0 <= x < NBUF :: old(refcnt[x]) > 0
      ensures b >= NBUF ==> dev == old(dev) && blockno == old(blockno) && valid == old(valid) && refcnt == old(refcnt)
      ensures b < NBUF ==> dev[b] == d && blockno[b] == n && refcnt == old(refcnt)[b := old(refcnt)[b] + 1]
      ensures old(Cached(d, n)) ==> dev == old(dev) && blockno == old(blockno) && valid == old(valid)
      ensures !old(Cached(d, n)) && b < NBUF ==>
                && dev == old(dev)[b := d] && blockno == old(blockno)[b := n] && valid == old(valid)[b := false]
                && old(refcnt)[b] == 0
                && forall x | 0 <= x < NBUF && x != b && old(refcnt)[x] == 0 :: stamp[b] < stamp[x]
    {
      b := Find(d, n);
      if b < NBUF {
        refcnt := refcnt[b := refcnt[b] + 1];
        return;
      }
      b := FindUnused();
      if b < NBUF {
        dev := dev[b := d];
        blockno := blockno[b := n];
        valid := valid[b := false];
        refcnt := refcnt[b := 1];
      }
    }

    /** Take buffer `b` out of the list. */
    method Unlink(b: nat, ghost j: nat)
      requires Ring(next, prev, order) && ByRelease(order, stamp) && j < |order| && order[j] == b
      modifies this`next, this`prev, this`order
      ensures Ring(next, prev, order) && ByRelease(order, stamp)
      ensures order == Without(old(order), j) && b !in order
    {
      Unlinked(next, prev, order, j);
      Unlinking(next, prev, order, j);
      StillByRelease(order, stamp, j);
      prev := prev[next[b] := prev[b]];
      next := next[prev[b] := next[b]];
      order := Without(order, j);
    }

    /** Put buffer `b` at the front of the list. */
    method PushFront(b: nat)
      requires Ring(next, prev, order) && ByRelease(order, stamp) && b < NBUF && b !in order
      requires forall x | 0 <= x < NBUF :: stamp[x] <= clock
      modifies this`next, this`prev, this`order, this`stamp, this`clock
      ensures Ring(next, prev, order) && ByRelease(order, stamp) && order == [b] + old(order)
      ensures clock == old(clock) + 1 && stamp == old(stamp)[b := clock]
    {
      Pushed(next, prev, order, b);
      FirstByRelease(order, stamp, b, clock);
      next := next[b := next[HEAD]];
      prev := prev[b := HEAD];
      prev := prev[next[HEAD] := b];
      next := next[HEAD := b];
      order, stamp, clock := [b] + order, stamp[b := clock + 1], clock + 1;
    }

    /** `brelse`: the last user's release moves the buffer to the front of the
        list, all others keep their order. */
    method Brelse(b: nat)
      requires Valid() && b < NBUF && refcnt[b] > 0
      modifies this
      ensures Valid() && refcnt == old(refcnt)[b := old(refcnt)[b] - 1]
      ensures dev == old(dev) && blockno == old(blockno) && valid == old(valid)
      ensures if refcnt[b] > 0 then order == old(order) && stamp == old(stamp) && clock == old(clock)
              else && (exists j | 0 <= j < |old(order)| :: old(order)[j] == b && order == [b] + Without(old(order), j))
                   && clock == old(clock) + 1 && stamp == old(stamp)[b := clock]
    {
      hide Follows, Stop, OneCopy;
      refcnt := refcnt[b := refcnt[b] - 1];
      if refcnt[b] == 0 {
        assert b in order;
        ghost var j :| 0 <= j < |order| && order[j] == b;
        Kept(order, j);
        Unlink(b, j);
        PushFront(b);
      }
    }

    /** `bpin`. */
    method Bpin(b: nat)
      requires Valid() && b < NBUF
      modifies this`refcnt
      ensures Valid() && refcnt == old(refcnt)[b := old(refcnt)[b] + 1]
    {
      refcnt := refcnt[b := refcnt[b] + 1];
    }

    /** `bunpin`. */
    method Bunpin(b: nat)
      requires Valid() && b < NBUF && refcnt[b] > 0
      modifies this`refcnt
      ensures Valid() && refcnt == old(refcnt)[b := old(refcnt)[b] - 1]
    {
      refcnt := refcnt[b := refcnt[b] - 1];
    }
  }

  /** A buffer's neighbours are not the buffer itself. */
  lemma Unlinking(next: seq<nat>, prev: seq<nat>, order: seq<nat>, j: nat)
    requires Ring(next, prev, order) && j < |order|
    ensures next[order[j]] != order[j] && prev[order[j]] != order[j]
  {
    assert Follows(next, prev, Stop(order, j), Stop(order, j + 1));
    assert Follows(next, prev, Stop(order, j + 1), Stop(order, j + 2));
    OneStop(order, j, j + 1);
    OneStop(order, j + 1, j + 2);
  }

  lemma Kept(order: seq<nat>, j: nat)
    requires j < |order|
    ensures forall x | x in order :: x in [order[j]] + Without(order, j)
  {
    forall x | x in order ensures x in [order[j]] + Without(order, j) {
      var i :| 0 <= i < |order| && order[i] == x;
      if i < j {
        assert Without(order, j)[i] == x;
      } else if i > j {
        assert Without(order, j)[i - 1] == x;
      }
    }
  }
}
