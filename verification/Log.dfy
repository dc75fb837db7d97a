/** The physical redo log of kernel/log.c: what each of its routines writes to
    the disk and in what order, and what a crash between any two of those
    writes leaves for recovery. */
module Log {
  import opened Bytes
  import opened Params
  import opened Sequences

  type Disk = seq<Block>

  /** Where the log lives: the header is block `start`, the logged copies follow. */
  datatype Layout = Layout(start: nat, size: nat) {
    predicate InLog(b: nat) {
      start <= b < start + size
    }

    predicate Fits(d: Disk) {
      && 1 <= size
      && start + size <= |d|
    }
  }

  datatype Write = Write(block: nat, data: Block)

  /** A list of home block numbers that a header may carry. */
  predicate Loggable(l: Layout, d: Disk, lh: seq<nat>) {
    && |lh| <= LOGSIZE
    && |lh| <= l.size - 1
    && Distinct(lh)
    && forall i | 0 <= i < |lh| :: lh[i] < |d| && lh[i] < UINT_MAX1 && !l.InLog(lh[i])
  }

  // ---------------------------------------------------------------- header

  /** The block numbers a header block names: word 0 is the count. */
  function HeaderBlocks(h: Block): (lh: seq<nat>)
    requires Word(h, 0) <= LOGSIZE
  {
    seq(Word(h, 0), i requires 0 <= i < Word(h, 0) => Word(h, 1 + i))
  }

  /** A header block after the count and the first `k` entries were stored;
      words past the last entry keep what they held. */
  function PutEntries(h: Block, lh: seq<nat>, k: nat): (r: Block)
    requires k <= |lh| <= LOGSIZE
    requires forall i | 0 <= i < |lh| :: lh[i] < UINT_MAX1
  {
    if k == 0 then PutWord(h, 0, |lh|) else PutWord(PutEntries(h, lh, k - 1), k, lh[k - 1])
  }

  function PutHeader(h: Block, lh: seq<nat>): Block
    requires |lh| <= LOGSIZE
    requires forall i | 0 <= i < |lh| :: lh[i] < UINT_MAX1
  {
    PutEntries(h, lh, |lh|)
  }

  lemma {:induction false} PutEntriesWords(h: Block, lh: seq<nat>, k: nat, j: nat)
    requires k <= |lh| <= LOGSIZE && j < WORDS
    requires forall i | 0 <= i < |lh| :: lh[i] < UINT_MAX1
    ensures Word(PutEntries(h, lh, k), j) == if j == 0 then |lh| else if j <= k then lh[j - 1] else Word(h, j)
  {
    if k == 0 {
      WordAfterPut(h, 0, |lh|, j);
    } else {
      PutEntriesWords(h, lh, k - 1, j);
      WordAfterPut(PutEntries(h, lh, k - 1), k, lh[k - 1], j);
    }
  }

  /** Writing a header and reading it back gives the same list, whatever the
      header block held before. */
  lemma HeaderRoundTrip(h: Block, lh: seq<nat>)
    requires |lh| <= LOGSIZE
    requires forall i | 0 <= i < |lh| :: lh[i] < UINT_MAX1
    ensures Word(PutHeader(h, lh), 0) == |lh|
    ensures HeaderBlocks(PutHeader(h, lh)) == lh
  {
    PutEntriesWords(h, lh, |lh|, 0);
    forall i | 0 <= i < |lh| ensures Word(PutHeader(h, lh), 1 + i) == lh[i] {
      PutEntriesWords(h, lh, |lh|, 1 + i);
    }
  }

  // ---------------------------------------------------------------- runs of writes

  function Apply(d: Disk, ws: seq<Write>): (r: Disk)
    ensures |r| == |d|
  {
    if ws == [] then d else
      var w := ws[|ws| - 1];
      var e := Apply(d, ws[..|ws| - 1]);
      if w.block < |e| then e[w.block := w.data] else e
  }

  lemma {:induction false} ApplyUntouched(d: Disk, ws: seq<Write>, b: nat)
    requires b < |d|
    requires forall i | 0 <= i < |ws| :: ws[i].block != b
    ensures Apply(d, ws)[b] == d[b]
  {
    if ws != [] {
      ApplyUntouched(d, ws[..|ws| - 1], b);
    }
  }

  /** A block holds what the last write to it stored. */
  lemma {:induction false} ApplyLast(d: Disk, ws: seq<Write>, b: nat, k: nat)
    requires b < |d| && k < |ws| && ws[k].block == b
    requires forall i | k < i < |ws| :: ws[i].block != b
    ensures Apply(d, ws)[b] == ws[k].data
  {
    if k < |ws| - 1 {
      ApplyLast(d, ws[..|ws| - 1], b, k);
    }
  }

  lemma ApplyAppend(d: Disk, ws: seq<Write>, w: Write)
    requires w.block < |d|
    ensures Apply(d, ws + [w]) == Apply(d, ws)[w.block := w.data]
  {
    assert (ws + [w])[..|ws|] == ws;
  }

  lemma {:induction false} ApplyConcat(d: Disk, us: seq<Write>, ws: seq<Write>)
    ensures Apply(d, us + ws) == Apply(Apply(d, us), ws)
  {
    if ws == [] {
      assert us + ws == us;
    } else {
      ApplyConcat(d, us, ws[..|ws| - 1]);
      assert (us + ws)[..|us + ws| - 1] == us + ws[..|ws| - 1];
    }
  }

  // ---------------------------------------------------------------- what the routines write

  /** `write_log`: the modified blocks go to consecutive log blocks. */
  function LogWrites(l: Layout, vs: seq<Block>): (ws: seq<Write>)
    ensures |ws| == |vs| && forall i | 0 <= i < |ws| :: ws[i] == Write(l.start + 1 + i, vs[i])
  {
    seq(|vs|, i requires 0 <= i < |vs| => Write(l.start + 1 + i, vs[i]))
  }

  /** `install_trans`: each logged block goes to its home location. */
  function HomeWrites(lh: seq<nat>, vs: seq<Block>): (ws: seq<Write>)
    requires |vs| == |lh|
    ensures |ws| == |lh| && forall i | 0 <= i < |ws| :: ws[i] == Write(lh[i], vs[i])
  {
    seq(|lh|, i requires 0 <= i < |lh| => Write(lh[i], vs[i]))
  }

  /** Everything `commit` sends to the disk, in order. */
  function CommitWrites(l: Layout, h: Block, lh: seq<nat>, vs: seq<Block>): seq<Write>
    requires |vs| == |lh| <= LOGSIZE
    requires forall i | 0 <= i < |lh| :: lh[i] < UINT_MAX1
  {
    if lh == [] then [] else
      (LogWrites(l, vs) + [Write(l.start, PutHeader(h, lh))])
      + (HomeWrites(lh, vs) + [Write(l.start, PutHeader(PutHeader(h, lh), []))])
  }

  /** The logged copies as the disk holds them. */
  function Logged(l: Layout, d: Disk, n: nat): (vs: seq<Block>)
    requires l.start + 1 + n <= |d|
    ensures |vs| == n
  {
    d[l.start + 1..l.start + 1 + n]
  }

  /** The disk carries a header that recovery can follow. */
  predicate Recoverable(l: Layout, d: Disk) {
    && l.Fits(d)
    && Word(d[l.start], 0) <= LOGSIZE
    && Loggable(l, d, HeaderBlocks(d[l.start]))
  }

  /** Everything `recover_from_log` sends to the disk, in order. */
  function RecoveryWrites(l: Layout, d: Disk): seq<Write>
    requires Recoverable(l, d)
  {
    var lh := HeaderBlocks(d[l.start]);
    HomeWrites(lh, Logged(l, d, |lh|)) + [Write(l.start, PutHeader(d[l.start], []))]
  }

  function Recovered(l: Layout, d: Disk): Disk
    requires Recoverable(l, d)
  {
    Apply(d, RecoveryWrites(l, d))
  }

  /** The two disks agree on every block outside the log. */
  predicate SameHome(l: Layout, d: Disk, e: Disk) {
    && |d| == |e|
    && forall b | 0 <= b < |d| && !l.InLog(b) :: d[b] == e[b]
  }

  /** Some prefix of the installs, perhaps with the header write after them. */
  predicate Installs(l: Layout, lh: seq<nat>, vs: seq<Block>, ws: seq<Write>)
    requires |vs| == |lh|
  {
    forall i | 0 <= i < |ws| :: if i < |lh| then ws[i] == Write(lh[i], vs[i]) else ws[i].block == l.start
  }

  /** A logged home block after those writes: the new contents if its turn came. */
  lemma HomeHit(l: Layout, d: Disk, lh: seq<nat>, vs: seq<Block>, ws: seq<Write>, i: nat)
    requires l.Fits(d) && Loggable(l, d, lh) && |vs| == |lh| && i < |lh|
    requires Installs(l, lh, vs, ws)
    ensures Apply(d, ws)[lh[i]] == if i < |ws| then vs[i] else d[lh[i]]
  {
    if i < |ws| {
      ApplyLast(d, ws, lh[i], i);
    } else {
      ApplyUntouched(d, ws, lh[i]);
    }
  }

  lemma HomeMiss(l: Layout, d: Disk, lh: seq<nat>, vs: seq<Block>, ws: seq<Write>, b: nat)
    requires l.Fits(d) && Loggable(l, d, lh) && |vs| == |lh|
    requires Installs(l, lh, vs, ws)
    requires b < |d| && !l.InLog(b) && b !in lh
    ensures Apply(d, ws)[b] == d[b]
  {
    ApplyUntouched(d, ws, b);
  }

  lemma RecoveryInstalls(l: Layout, d: Disk, k: nat)
    requires Recoverable(l, d) && k <= |RecoveryWrites(l, d)|
    ensures var lh := HeaderBlocks(d[l.start]);
            Installs(l, lh, Logged(l, d, |lh|), RecoveryWrites(l, d)[..k])
  {
    var lh := HeaderBlocks(d[l.start]);
    var vs := Logged(l, d, |lh|);
    var all := RecoveryWrites(l, d);
    forall i | 0 <= i < k ensures if i < |lh| then all[i] == Write(lh[i], vs[i]) else all[i].block == l.start {
      if i < |lh| {
        assert all[i] == HomeWrites(lh, vs)[i];
      }
    }
  }

  // ---------------------------------------------------------------- recovery

  /** Recovery leaves the logged copy in every block the header names ... */
  lemma RecoveredLogged(l: Layout, d: Disk, i: nat)
    requires Recoverable(l, d) && i < |HeaderBlocks(d[l.start])|
    ensures Recovered(l, d)[HeaderBlocks(d[l.start])[i]] == d[l.start + 1 + i]
  {
    var lh := HeaderBlocks(d[l.start]);
    var ws := RecoveryWrites(l, d);
    RecoveryInstalls(l, d, |ws|);
    assert ws[..|ws|] == ws;
    HomeHit(l, d, lh, Logged(l, d, |lh|), ws, i);
  }

  /** ... leaves every other home block alone ... */
  lemma RecoveredOther(l: Layout, d: Disk, b: nat)
    requires Recoverable(l, d)
    requires b < |d| && !l.InLog(b) && b !in HeaderBlocks(d[l.start])
    ensures Recovered(l, d)[b] == d[b]
  {
    var lh := HeaderBlocks(d[l.start]);
    var ws := RecoveryWrites(l, d);
    RecoveryInstalls(l, d, |ws|);
    assert ws[..|ws|] == ws;
    HomeMiss(l, d, lh, Logged(l, d, |lh|), ws, b);
  }

  lemma RecoveryKeepsCopies(l: Layout, d: Disk, k: nat)
    requires Recoverable(l, d) && k <= |RecoveryWrites(l, d)|
    ensures var e := Apply(d, RecoveryWrites(l, d)[..k]);
            forall c | l.start < c < l.start + l.size :: e[c] == d[c]
  {
    var ws := RecoveryWrites(l, d)[..k];
    forall c | l.start < c < l.start + l.size ensures Apply(d, ws)[c] == d[c] {
      ApplyUntouched(d, ws, c);
    }
  }

  /** The header and the logged copies after the first `k` writes of recovery. */
  lemma RecoveryHeader(l: Layout, d: Disk, k: nat)
    requires Recoverable(l, d) && k <= |RecoveryWrites(l, d)|
    ensures var e := Apply(d, RecoveryWrites(l, d)[..k]);
            var lh := HeaderBlocks(d[l.start]);
            && Recoverable(l, e)
            && HeaderBlocks(e[l.start]) == (if k <= |lh| then lh else [])
            && forall c | l.start < c < l.start + l.size :: e[c] == d[c]
  {
    var lh := HeaderBlocks(d[l.start]);
    var ws := RecoveryWrites(l, d)[..k];
    if k <= |lh| {
      ApplyUntouched(d, ws, l.start);
    } else {
      ApplyLast(d, ws, l.start, |lh|);
      HeaderRoundTrip(d[l.start], []);
    }
    RecoveryKeepsCopies(l, d, k);
  }

  /** ... and leaves the log empty. */
  lemma RecoveryEmptiesLog(l: Layout, d: Disk)
    requires Recoverable(l, d)
    ensures Recoverable(l, Recovered(l, d)) && HeaderBlocks(Recovered(l, d)[l.start]) == []
  {
    var ws := RecoveryWrites(l, d);
    assert ws[..|ws|] == ws;
    RecoveryHeader(l, d, |ws|);
  }

  /** After the first `k` writes of recovery, recovery started again leaves the
      same home blocks. */
  lemma RecoveryPrefix(l: Layout, d: Disk, k: nat, b: nat)
    requires Recoverable(l, d) && k <= |RecoveryWrites(l, d)|
    requires b < |d| && !l.InLog(b)
    ensures var e := Apply(d, RecoveryWrites(l, d)[..k]);
            Recoverable(l, e) && Recovered(l, e)[b] == Recovered(l, d)[b]
  {
    hide Recovered, Apply, Installs;
    var lh := HeaderBlocks(d[l.start]);
    var vs := Logged(l, d, |lh|);
    var ws := RecoveryWrites(l, d)[..k];
    var e := Apply(d, ws);
    RecoveryHeader(l, d, k);
    RecoveryInstalls(l, d, k);
    if i :| 0 <= i < |lh| && lh[i] == b {
      RecoveredLogged(l, d, i);
      if k <= |lh| {
        RecoveredLogged(l, e, i);
      } else {
        HomeHit(l, d, lh, vs, ws, i);
        RecoveredOther(l, e, b);
      }
    } else {
      RecoveredOther(l, d, b);
      HomeMiss(l, d, lh, vs, ws, b);
      RecoveredOther(l, e, b);
    }
  }

  /** The machine crashes once inside each of a series of recoveries, after
      `ks[0]`, `ks[1]`, ... writes, and then one recovery runs to the end. */
  function AfterCrashes(l: Layout, d: Disk, ks: seq<nat>): (r: Disk)
    requires Recoverable(l, d)
    ensures |r| == |d|
    decreases |ks|
  {
    if ks == [] then Recovered(l, d) else
      var ws := RecoveryWrites(l, d);
      var k := if ks[0] <= |ws| then ks[0] else |ws|;
      RecoveryHeader(l, d, k);
      AfterCrashes(l, Apply(d, ws[..k]), ks[1..])
  }

  /** Any number of crashes inside recovery change nothing: the final recovery
      leaves what an undisturbed one would have left. */
  lemma {:induction false} RepeatedCrashes(l: Layout, d: Disk, ks: seq<nat>, b: nat)
    requires Recoverable(l, d) && b < |d| && !l.InLog(b)
    ensures AfterCrashes(l, d, ks)[b] == Recovered(l, d)[b]
    decreases |ks|
  {
    if ks != [] {
      var ws := RecoveryWrites(l, d);
      var k := if ks[0] <= |ws| then ks[0] else |ws|;
      RecoveryPrefix(l, d, k, b);
      RepeatedCrashes(l, Apply(d, ws[..k]), ks[1..], b);
    }
  }

  // ---------------------------------------------------------------- crashes inside commit

  /** The header on disk after the first `k` writes of a commit: the new one
      from the commit point until it is erased, an empty one otherwise. */
  lemma CommitHeader(l: Layout, d: Disk, lh: seq<nat>, vs: seq<Block>, k: nat)
    requires Recoverable(l, d) && HeaderBlocks(d[l.start]) == []
    requires Loggable(l, d, lh) && |vs| == |lh|
    requires k <= |CommitWrites(l, d[l.start], lh, vs)|
    ensures var e := Apply(d, CommitWrites(l, d[l.start], lh, vs)[..k]);
            && Recoverable(l, e)
            && HeaderBlocks(e[l.start]) == if |lh| < k < 2 * |lh| + 2 then lh else []
  {
    var all := CommitWrites(l, d[l.start], lh, vs);
    var ws := all[..k];
    if k <= |lh| {
      ApplyUntouched(d, ws, l.start);
    } else {
      HeaderRoundTrip(d[l.start], lh);
      HeaderRoundTrip(PutHeader(d[l.start], lh), []);
      ApplyLast(d, ws, l.start, if k == |all| then k - 1 else |lh|);
    }
  }

  lemma CommitCopies(l: Layout, d: Disk, lh: seq<nat>, vs: seq<Block>, k: nat, i: nat)
    requires l.Fits(d) && Loggable(l, d, lh) && |vs| == |lh|
    requires i < |lh| < k <= |CommitWrites(l, d[l.start], lh, vs)|
    ensures Apply(d, CommitWrites(l, d[l.start], lh, vs)[..k])[l.start + 1 + i] == vs[i]
  {
    ApplyLast(d, CommitWrites(l, d[l.start], lh, vs)[..k], l.start + 1 + i, i);
  }

  /** The part of a commit that precedes the installs leaves home blocks alone. */
  lemma BeforeInstalls(l: Layout, d: Disk, lh: seq<nat>, vs: seq<Block>, k: nat, b: nat)
    requires l.Fits(d) && Loggable(l, d, lh) && |vs| == |lh|
    requires k <= |lh| + 1 && k <= |CommitWrites(l, d[l.start], lh, vs)|
    requires b < |d| && !l.InLog(b)
    ensures Apply(d, CommitWrites(l, d[l.start], lh, vs)[..k])[b] == d[b]
  {
    ApplyUntouched(d, CommitWrites(l, d[l.start], lh, vs)[..k], b);
  }

  lemma CommitInstalls(l: Layout, d: Disk, lh: seq<nat>, vs: seq<Block>, k: nat)
    requires l.Fits(d) && Loggable(l, d, lh) && |vs| == |lh|
    requires |lh| + 1 <= k <= |CommitWrites(l, d[l.start], lh, vs)|
    ensures var all := CommitWrites(l, d[l.start], lh, vs);
            && Installs(l, lh, vs, all[|lh| + 1..k])
            && Apply(d, all[..k]) == Apply(Apply(d, all[..|lh| + 1]), all[|lh| + 1..k])
  {
    var n := |lh|;
    var all := CommitWrites(l, d[l.start], lh, vs);
    assert Installs(l, lh, vs, all[n + 1..k]) by {
      var last := HomeWrites(lh, vs) + [Write(l.start, PutHeader(PutHeader(d[l.start], lh), []))];
      assert all[n + 1..k] == last[..k - n - 1];
      assert Installs(l, lh, vs, last);
    }
    assert all[..k] == all[..n + 1] + all[n + 1..k];
    ApplyConcat(d, all[..n + 1], all[n + 1..k]);
  }

  /** After the first `k` writes of a commit, recovery leaves the new contents
      of a logged block exactly when the header naming it has been written. */
  lemma CommitPrefixLogged(l: Layout, d: Disk, lh: seq<nat>, vs: seq<Block>, k: nat, i: nat)
    requires Recoverable(l, d) && HeaderBlocks(d[l.start]) == []
    requires Loggable(l, d, lh) && |vs| == |lh| && i < |lh|
    requires k <= |CommitWrites(l, d[l.start], lh, vs)|
    ensures var e := Apply(d, CommitWrites(l, d[l.start], lh, vs)[..k]);
            Recoverable(l, e) && Recovered(l, e)[lh[i]] == if k > |lh| then vs[i] else d[lh[i]]
  {
    var all := CommitWrites(l, d[l.start], lh, vs);
    var e := Apply(d, all[..k]);
    CommitHeader(l, d, lh, vs, k);
    if k <= |lh| {
      BeforeInstalls(l, d, lh, vs, k, lh[i]);
      RecoveredOther(l, e, lh[i]);
    } else if k < |all| {
      CommitCopies(l, d, lh, vs, k, i);
      RecoveredLogged(l, e, i);
    } else {
      CommitInstalls(l, d, lh, vs, k);
      HomeHit(l, Apply(d, all[..|lh| + 1]), lh, vs, all[|lh| + 1..k], i);
      RecoveredOther(l, e, lh[i]);
    }
  }

  lemma CommitPrefixOther(l: Layout, d: Disk, lh: seq<nat>, vs: seq<Block>, k: nat, b: nat)
    requires Recoverable(l, d) && HeaderBlocks(d[l.start]) == []
    requires Loggable(l, d, lh) && |vs| == |lh|
    requires b < |d| && !l.InLog(b) && b !in lh
    requires k <= |CommitWrites(l, d[l.start], lh, vs)|
    ensures var e := Apply(d, CommitWrites(l, d[l.start], lh, vs)[..k]);
            Recoverable(l, e) && e[b] == Recovered(l, e)[b] == d[b]
  {
    var all := CommitWrites(l, d[l.start], lh, vs);
    var e := Apply(d, all[..k]);
    CommitHeader(l, d, lh, vs, k);
    if k <= |lh| + 1 {
      BeforeInstalls(l, d, lh, vs, k, b);
    } else {
      CommitInstalls(l, d, lh, vs, k);
      BeforeInstalls(l, d, lh, vs, |lh| + 1, b);
      HomeMiss(l, Apply(d, all[..|lh| + 1]), lh, vs, all[|lh| + 1..k], b);
    }
    RecoveredOther(l, e, b);
  }

  /** The home blocks after a commit that ran to its end. */
  lemma CommitCompletes(l: Layout, d: Disk, lh: seq<nat>, vs: seq<Block>)
    requires Recoverable(l, d) && HeaderBlocks(d[l.start]) == []
    requires Loggable(l, d, lh) && |vs| == |lh| > 0
    ensures var e := Apply(d, CommitWrites(l, d[l.start], lh, vs));
            && Recoverable(l, e) && HeaderBlocks(e[l.start]) == []
            && (forall i | 0 <= i < |lh| :: e[lh[i]] == vs[i])
            && (forall b | 0 <= b < |d| && !l.InLog(b) && b !in lh :: e[b] == d[b])
  {
    var ws := CommitWrites(l, d[l.start], lh, vs);
    assert ws[..|ws|] == ws;
    CommitHeader(l, d, lh, vs, |ws|);
    CommitInstalls(l, d, lh, vs, |ws|);
    forall i | 0 <= i < |lh| ensures Apply(d, ws)[lh[i]] == vs[i] {
      HomeHit(l, Apply(d, ws[..|lh| + 1]), lh, vs, ws[|lh| + 1..], i);
    }
    forall b | 0 <= b < |d| && !l.InLog(b) && b !in lh ensures Apply(d, ws)[b] == d[b] {
      CommitPrefixOther(l, d, lh, vs, |ws|, b);
    }
  }

  /** Crash atomicity at one home block. */
  lemma CrashAtomicAt(l: Layout, d: Disk, lh: seq<nat>, vs: seq<Block>, k: nat, b: nat)
    requires Recoverable(l, d) && HeaderBlocks(d[l.start]) == []
    requires Loggable(l, d, lh) && |vs| == |lh|
    requires k <= |CommitWrites(l, d[l.start], lh, vs)|
    requires b < |d| && !l.InLog(b)
    ensures var e := Apply(d, CommitWrites(l, d[l.start], lh, vs)[..k]);
            && Recoverable(l, e)
            && Recovered(l, e)[b] == (if k > |lh| then Apply(d, HomeWrites(lh, vs)) else d)[b]
  {
    if i :| 0 <= i < |lh| && lh[i] == b {
      CommitPrefixLogged(l, d, lh, vs, k, i);
      HomeHit(l, d, lh, vs, HomeWrites(lh, vs), i);
    } else {
      CommitPrefixOther(l, d, lh, vs, k, b);
      HomeMiss(l, d, lh, vs, HomeWrites(lh, vs), b);
    }
  }

  /** Crash atomicity.  Stop the machine after any number of the writes of a
      commit, then crash any number of further times inside recovery: the last
      recovery leaves every home block as it was before the transaction, or
      every home block as it is after it, and it is the second exactly when
      the header write had reached the disk. */
  lemma CrashAtomicity(l: Layout, d: Disk, lh: seq<nat>, vs: seq<Block>, k: nat, ks: seq<nat>)
    requires Recoverable(l, d) && HeaderBlocks(d[l.start]) == []
    requires Loggable(l, d, lh) && |vs| == |lh|
    requires k <= |CommitWrites(l, d[l.start], lh, vs)|
    ensures var e := Apply(d, CommitWrites(l, d[l.start], lh, vs)[..k]);
            && Recoverable(l, e)
            && SameHome(l, AfterCrashes(l, e, ks), if k > |lh| then Apply(d, HomeWrites(lh, vs)) else d)
  {
    var e := Apply(d, CommitWrites(l, d[l.start], lh, vs)[..k]);
    CommitHeader(l, d, lh, vs, k);
    forall b | 0 <= b < |d| && !l.InLog(b)
      ensures AfterCrashes(l, e, ks)[b] == (if k > |lh| then Apply(d, HomeWrites(lh, vs)) else d)[b]
    {
      RepeatedCrashes(l, e, ks, b);
      CrashAtomicAt(l, d, lh, vs, k, b);
    }
  }
}
