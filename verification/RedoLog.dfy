/** kernel/log.c as it runs: the in-memory log, its loops over the header and
    the logged blocks, and the order in which it writes the disk. */
module RedoLogImpl {
  import opened Bytes
  import opened Log
  import opened Params
  import opened Sequences

  /** Exactly the logged blocks are pinned. */
  predicate Pinned(lh: seq<nat>, pinned: map<nat, Block>) {
    && (forall i | 0 <= i < |lh| :: lh[i] in pinned)
    && (forall b | b in pinned :: b in lh)
  }

  /** The contents to be committed, in log order. */
  function Values(lh: seq<nat>, pinned: map<nat, Block>): (vs: seq<Block>)
    requires forall i | 0 <= i < |lh| :: lh[i] in pinned
    ensures |vs| == |lh| && forall i | 0 <= i < |lh| :: vs[i] == pinned[lh[i]]
  {
    seq(|lh|, i requires 0 <= i < |lh| && lh[i] in pinned => pinned[lh[i]])
  }

  /** A block enters the log once, and is pinned from then on. */
  lemma LoggedOnce(l: Layout, d: Disk, lh: seq<nat>, pinned: map<nat, Block>, b: nat, data: Block)
    requires Loggable(l, d, lh) && Pinned(lh, pinned) && b < |d| && b < UINT_MAX1 && !l.InLog(b)
    requires |lh| < LOGSIZE && |lh| < l.size - 1
    ensures var more := if b in lh then lh else lh + [b]; Loggable(l, d, more) && Pinned(more, pinned[b := data])
  {
  }

  /** The first `n` logged blocks have been unpinned. */
  ghost predicate Unpinned(lh: seq<nat>, pinned: map<nat, Block>, pinned': map<nat, Block>, n: nat) {
    && (forall b | b !in lh :: b in pinned' <==> b in pinned)
    && (forall i | 0 <= i < |lh| :: lh[i] in pinned' <==> n <= i && lh[i] in pinned)
  }

  lemma UnpinnedNone(lh: seq<nat>, pinned: map<nat, Block>)
    ensures Unpinned(lh, pinned, pinned, 0)
  {
  }

  lemma UnpinnedMore(lh: seq<nat>, pinned: map<nat, Block>, pinned': map<nat, Block>, n: nat)
    requires n < |lh| && Distinct(lh)
    ensures Unpinned(lh, pinned, pinned', n) ==> Unpinned(lh, pinned, pinned' - {lh[n]}, n + 1)
  {
  }

  lemma UnpinnedAll(lh: seq<nat>, pinned: map<nat, Block>, pinned': map<nat, Block>, n: nat)
    requires |lh| <= n
    ensures Unpinned(lh, pinned, pinned', n) ==> forall b :: b in pinned' <==> b in pinned && b !in lh
  {
  }

  class RedoLog {
    const layout: Layout
    var disk: Disk
    var lh: seq<nat>            // log.lh.block[0 .. log.lh.n]
    var pinned: map<nat, Block> // cached contents of the logged blocks, newer than the disk
    var outstanding: nat
    var committing: bool
    ghost var trace: seq<Write> // every block write sent to the disk, oldest first

    /** The contents `bread` returns for a block. */
    function View(b: nat): Block
      requires b < |disk|
      reads this`disk, this`pinned
    {
      if b in pinned then pinned[b] else disk[b]
    }

    ghost predicate Valid()
      reads this`disk, this`lh, this`pinned
    {
      && layout.Fits(disk)
      && Loggable(layout, disk, lh)
      && Pinned(lh, pinned)
    }

    /** No transaction is on disk. */
    ghost predicate Clean()
      reads this`disk
    {
      && Recoverable(layout, disk)
      && HeaderBlocks(disk[layout.start]) == []
    }

    /** `initlog` up to recovery: nothing is cached and no operation runs. */
    constructor (l: Layout, d: Disk)
      requires Recoverable(l, d)
      ensures layout == l && disk == d && lh == [] && pinned == map[] && outstanding == 0 && !committing && trace == []
      ensures Valid()
    {
      layout, disk, lh, pinned := l, d, [], map[];
      outstanding, committing, trace := 0, false, [];
    }

    /** One pass of the loop in `begin_op`: the caller is admitted, or sleeps. */
    method BeginOp() returns (admitted: bool)
      requires Valid()
      modifies this`outstanding
      ensures admitted <==> !committing && |lh| + (old(outstanding) + 1) * MAXOPBLOCKS <= LOGSIZE
      ensures outstanding == if admitted then old(outstanding) + 1 else old(outstanding)
    {
      if committing {
        return false;
      } else if |lh| + (outstanding + 1) * MAXOPBLOCKS > LOGSIZE {
        return false;
      } else {
        outstanding := outstanding + 1;
        return true;
      }
    }

    /** `log_write`: record a modified buffer, once, and pin it. */
    method LogWrite(b: nat, data: Block)
      requires Valid() && b < |disk| && b < UINT_MAX1 && !layout.InLog(b)
      requires |lh| < LOGSIZE && |lh| < layout.size - 1
      requires outstanding >= 1
      modifies this`lh, this`pinned
      ensures Valid()
      ensures lh == if b in old(lh) then old(lh) else old(lh) + [b]
      ensures forall c | 0 <= c < |disk| :: View(c) == if c == b then data else old(View(c))
    {
      hide Pinned, Loggable;
      LoggedOnce(layout, disk, lh, pinned, b, data);
      var i := 0;
      while i < |lh| && lh[i] != b
        invariant 0 <= i <= |lh|
        invariant b !in lh[..i]
      {
        i := i + 1;
      }
      if i == |lh| {
        lh := lh + [b];
      } else {
        assert lh[i := b] == lh;
        lh := lh[i := b];
      }
      pinned := pinned[b := data];
    }

    /** `bwrite` of a buffer that is not pinned by the log. */
    method Bwrite(b: nat, data: Block)
      requires b < |disk|
      modifies this`disk, this`trace
      ensures disk == old(disk)[b := data]
      ensures trace == old(trace) + [Write(b, data)]
    {
      disk := disk[b := data];
      trace := trace + [Write(b, data)];
    }

    method WriteLog()
      requires Valid()
      modifies this`disk, this`trace
      ensures Valid()
      ensures trace == old(trace) + LogWrites(layout, Values(old(lh), old(pinned)))
      ensures disk == Apply(old(disk), LogWrites(layout, Values(old(lh), old(pinned))))
    {
      ghost var ws := LogWrites(layout, Values(lh, pinned));
      var tail := 0;
      while tail < |lh|
        invariant 0 <= tail <= |lh| && |disk| == |old(disk)|
        invariant Progress(old(trace), old(disk), ws, tail, trace, disk)
      {
        OneMore(old(trace), old(disk), ws, tail, trace, disk, Write(layout.start + tail + 1, View(lh[tail])));
        Bwrite(layout.start + tail + 1, View(lh[tail]));
        tail := tail + 1;
      }
      assert ws[..|lh|] == ws;
    }

    method WriteHead()
      requires Valid()
      modifies this`disk, this`trace
      ensures Valid()
      ensures disk == old(disk)[layout.start := PutHeader(old(disk)[layout.start], lh)]
      ensures trace == old(trace) + [Write(layout.start, PutHeader(old(disk)[layout.start], lh))]
    {
      var h := disk[layout.start];
      var hb := PutWord(h, 0, |lh|);
      var i := 0;
      while i < |lh|
        invariant 0 <= i <= |lh|
        invariant hb == PutEntries(h, lh, i)
      {
        hb := PutWord(hb, 1 + i, lh[i]);
        i := i + 1;
      }
      Bwrite(layout.start, hb);
    }

    /** `read_head`; the count is trusted to fit the in-memory array. */
    method ReadHead()
      requires layout.Fits(disk) && Word(disk[layout.start], 0) <= LOGSIZE
      modifies this`lh
      ensures lh == HeaderBlocks(disk[layout.start])
    {
      var h := disk[layout.start];
      var n := Word(h, 0);
      lh := [];
      var i := 0;
      while i < n
        invariant 0 <= i <= n
        invariant lh == HeaderBlocks(h)[..i]
      {
        lh := lh + [Word(h, 1 + i)];
        i := i + 1;
      }
    }

    /** `install_trans`: copy the logged blocks home, and unpin them unless
        this is recovery, which never pinned them. */
    method InstallTrans(recovering: bool)
      requires layout.Fits(disk) && Loggable(layout, disk, lh)
      requires recovering || forall i | 0 <= i < |lh| :: lh[i] in pinned
      modifies this`disk, this`trace, this`pinned
      ensures |disk| == old(|disk|)
      ensures trace == old(trace) + HomeWrites(lh, Logged(layout, old(disk), |lh|))
      ensures disk == Apply(old(disk), HomeWrites(lh, Logged(layout, old(disk), |lh|)))
      ensures recovering ==> pinned == old(pinned)
      ensures !recovering ==> forall b :: b in pinned <==> b in old(pinned) && b !in lh
    {
      hide Unpinned, Progress, Apply, HomeWrites, Loggable;
      LoggableGives(layout, disk, lh);
      ghost var ws := HomeWrites(lh, Logged(layout, disk, |lh|));
      UnpinnedNone(lh, pinned);
      InstallStart(trace, disk, ws);
      var tail := 0;
      while tail < |lh|
        invariant 0 <= tail <= |lh| && |disk| == |old(disk)|
        invariant Progress(old(trace), old(disk), ws, tail, trace, disk)
        invariant recovering ==> pinned == old(pinned)
        invariant !recovering ==> Unpinned(lh, old(pinned), pinned, tail)
      {
        UnpinnedMore(lh, old(pinned), pinned, tail);
        InstallNext(layout, old(trace), old(disk), lh, tail, trace, disk);
        Bwrite(lh[tail], disk[layout.start + tail + 1]);
        if !recovering {
          pinned := pinned - {lh[tail]};
        }
        tail := tail + 1;
      }
      InstallEnd(layout, old(trace), old(disk), lh, trace, disk);
      UnpinnedAll(lh, old(pinned), pinned, tail);
    }

    method CommitTransaction()
      requires Valid() && |lh| > 0
      modifies this`disk, this`trace, this`pinned, this`lh
      ensures lh == [] && pinned == map[]
      ensures trace == old(trace) + CommitWrites(layout, old(disk)[layout.start], old(lh), Values(old(lh), old(pinned)))
      ensures disk == Apply(old(disk), CommitWrites(layout, old(disk)[layout.start], old(lh), Values(old(lh), old(pinned))))
    {
      hide Apply, LogWrites, HomeWrites, PutHeader;
      ghost var d0, lh0, vs := disk, lh, Values(lh, pinned);
      CommitChain(layout, d0, lh, vs);
      WriteLog();
      WriteHead();
      InstallTrans(false);
      lh := [];
      WriteHead();
      Regroup(old(trace), LogWrites(layout, vs), [Write(layout.start, PutHeader(d0[layout.start], lh0))],
              HomeWrites(lh0, vs), [Write(layout.start, PutHeader(PutHeader(d0[layout.start], lh0), []))]);
    }

    /** `commit`: the disk sees exactly the writes of `CommitWrites`, the log is
        empty again, and every home block on disk is what readers already saw. */
    method Commit()
      requires Valid() && Clean()
      modifies this`disk, this`trace, this`pinned, this`lh
      ensures Valid() && Clean() && lh == []
      ensures trace == old(trace) + CommitWrites(layout, old(disk)[layout.start], old(lh), Values(old(lh), old(pinned)))
      ensures disk == Apply(old(disk), CommitWrites(layout, old(disk)[layout.start], old(lh), Values(old(lh), old(pinned))))
      ensures forall b | 0 <= b < |disk| && !layout.InLog(b) :: disk[b] == View(b) == old(View(b))
    {
      if |lh| > 0 {
        CommitCompletes(layout, disk, lh, Values(lh, pinned));
        CommitTransaction();
      }
    }

    /** `end_op`: the last operation out commits. */
    method EndOp()
      requires Valid() && Clean() && outstanding >= 1 && !committing
      modifies this
      ensures Valid() && Clean() && !committing && outstanding == old(outstanding) - 1
      ensures |disk| == old(|disk|)
      ensures forall b | 0 <= b < |disk| && !layout.InLog(b) :: View(b) == old(View(b))
      ensures if outstanding == 0
              then lh == [] && trace == old(trace) + CommitWrites(layout, old(disk)[layout.start], old(lh), Values(old(lh), old(pinned)))
              else lh == old(lh) && trace == old(trace)
    {
      outstanding := outstanding - 1;
      if outstanding == 0 {
        committing := true;
        Commit();
        committing := false;
      }
    }

    /** `recover_from_log`, run at boot when nothing is cached yet. */
    method RecoverFromLog()
      requires Recoverable(layout, disk) && pinned == map[]
      modifies this`disk, this`trace, this`pinned, this`lh
      ensures Valid() && Clean() && lh == [] && pinned == map[]
      ensures trace == old(trace) + RecoveryWrites(layout, old(disk))
      ensures disk == Recovered(layout, old(disk))
    {
      ghost var d0 := disk;
      ReadHead();
      ghost var home := HomeWrites(lh, Logged(layout, disk, |lh|));
      InstallTrans(true);
      ApplyUntouched(d0, home, layout.start);
      lh := [];
      ApplyAppend(d0, home, Write(layout.start, PutHeader(d0[layout.start], [])));
      WriteHead();
      RecoveryEmptiesLog(layout, d0);
    }
  }

  /** The trace has grown by the first `k` of the writes `ws`, and so has the disk. */
  ghost predicate Progress(t0: seq<Write>, d0: Disk, ws: seq<Write>, k: nat, t: seq<Write>, d: Disk) {
    k <= |ws| && t == t0 + ws[..k] && d == Apply(d0, ws[..k])
  }

  lemma InstallStart(t0: seq<Write>, d0: Disk, ws: seq<Write>)
    ensures Progress(t0, d0, ws, 0, t0, d0)
  {
  }

  lemma LoggableGives(l: Layout, d: Disk, lh: seq<nat>)
    requires Loggable(l, d, lh)
    ensures |lh| <= l.size - 1 && Distinct(lh) && forall i | 0 <= i < |lh| :: lh[i] < |d|
  {
  }

  /** The next block copied home. */
  lemma InstallNext(l: Layout, t0: seq<Write>, d0: Disk, lh: seq<nat>, k: nat, t: seq<Write>, d: Disk)
    requires l.Fits(d0) && Loggable(l, d0, lh) && k < |lh| && |d| == |d0|
    requires Progress(t0, d0, HomeWrites(lh, Logged(l, d0, |lh|)), k, t, d)
    ensures var w := Write(lh[k], d[l.start + k + 1]);
            Progress(t0, d0, HomeWrites(lh, Logged(l, d0, |lh|)), k + 1, t + [w], d[w.block := w.data])
  {
    var ws := HomeWrites(lh, Logged(l, d0, |lh|));
    ApplyUntouched(d0, ws[..k], l.start + k + 1);
    hide Apply;
    OneMore(t0, d0, ws, k, t, d, Write(lh[k], d[l.start + k + 1]));
  }

  lemma InstallEnd(l: Layout, t0: seq<Write>, d0: Disk, lh: seq<nat>, t: seq<Write>, d: Disk)
    requires l.Fits(d0) && Loggable(l, d0, lh)
    requires Progress(t0, d0, HomeWrites(lh, Logged(l, d0, |lh|)), |lh|, t, d)
    ensures t == t0 + HomeWrites(lh, Logged(l, d0, |lh|)) && d == Apply(d0, HomeWrites(lh, Logged(l, d0, |lh|)))
  {
    var ws := HomeWrites(lh, Logged(l, d0, |lh|));
    assert ws[..|lh|] == ws;
  }

  lemma OneMore(t0: seq<Write>, d0: Disk, ws: seq<Write>, k: nat, t: seq<Write>, d: Disk, w: Write)
    requires Progress(t0, d0, ws, k, t, d) && k < |ws| && w == ws[k] && w.block < |d|
    ensures Progress(t0, d0, ws, k + 1, t + [w], d[w.block := w.data])
  {
    assert ws[..k + 1][..k] == ws[..k];
    assert t0 + ws[..k] + [ws[k]] == t0 + ws[..k + 1];
  }

  lemma Regroup(t: seq<Write>, a: seq<Write>, b: seq<Write>, c: seq<Write>, d: seq<Write>)
    ensures t + a + b + c + d == t + ((a + b) + (c + d))
  {
  }

  lemma LoggedCopies(l: Layout, d: Disk, lh: seq<nat>, vs: seq<Block>)
    requires l.Fits(d) && Loggable(l, d, lh) && |vs| == |lh|
    ensures Logged(l, Apply(d, LogWrites(l, vs))[l.start := PutHeader(d[l.start], lh)], |lh|) == vs
  {
    forall i | 0 <= i < |lh| ensures Apply(d, LogWrites(l, vs))[l.start + 1 + i] == vs[i] {
      ApplyLast(d, LogWrites(l, vs), l.start + 1 + i, i);
    }
  }

  /** The disks between the four parts of a commit. */
  lemma CommitChain(l: Layout, d: Disk, lh: seq<nat>, vs: seq<Block>)
    requires l.Fits(d) && Loggable(l, d, lh) && |vs| == |lh| > 0
    ensures var h := d[l.start];
            var d1 := Apply(d, LogWrites(l, vs));
            var d2 := d1[l.start := PutHeader(h, lh)];
            var d3 := Apply(d2, HomeWrites(lh, vs));
            && d1[l.start] == h
            && Logged(l, d2, |lh|) == vs
            && d3[l.start] == PutHeader(h, lh)
            && d3[l.start := PutHeader(PutHeader(h, lh), [])] == Apply(d, CommitWrites(l, h, lh, vs))
  {
    var h := d[l.start];
    var logs, home := LogWrites(l, vs), HomeWrites(lh, vs);
    var head, clear := Write(l.start, PutHeader(h, lh)), Write(l.start, PutHeader(PutHeader(h, lh), []));
    ApplyUntouched(d, logs, l.start);
    LoggedCopies(l, d, lh, vs);
    ApplyAppend(d, logs, head);
    ApplyConcat(d, logs + [head], home + [clear]);
    ApplyAppend(Apply(d, logs + [head]), home, clear);
    ApplyUntouched(Apply(d, logs + [head]), home, l.start);
  }
}
