/** Crash behaviour of the write-ahead log of kernel/log.c, on disk contents and block writes.

    `LogWrites`, `HeadWrite` and `RecoverWrites` are the block writes that write_log, write_head and
    recover_from_log issue, in order; module Log shows that the code issues exactly these. A crash
    keeps a prefix of the writes issued so far. */
module LogSpec {
  import opened Blocks

  const MAXOPBLOCKS: nat := 10
  const LOGSIZE: nat := 30

  /** Where the log lies: a header block at `start`, then `size - 1` log blocks. */
  datatype Area = Area(start: nat, size: nat) {
    predicate Has(b: int) { start <= b < start + size }
  }

  /** One transaction: distinct home blocks and their new contents. */
  datatype Txn = Txn(blocks: seq<int>, data: seq<Block>)

  /** Positions `s` and `t` hold different blocks. */
  ghost predicate Differ(r: seq<int>, s: nat, t: nat)
    requires s < |r| && t < |r|
  {
    r[s] != r[t]
  }

  ghost predicate AllDiffer(r: seq<int>) { forall s: nat, t: nat | s < t < |r| :: Differ(r, s, t) }

  /** The position of block `b` among the first `n` of `r`, or -1. */
  ghost function Slot(r: seq<int>, n: nat, b: int): (k: int)
    requires n <= |r|
    ensures -1 <= k < n
    ensures k >= 0 ==> r[k] == b
    ensures forall j | k < j < n :: r[j] != b
  {
    if n == 0 then -1 else if r[n - 1] == b then n - 1 else Slot(r, n - 1, b)
  }

  /** The block numbers recorded in a header block (struct logheader). */
  function Recorded(h: Block): (r: seq<int>)
    requires 0 <= h[0] <= LOGSIZE
    ensures |r| == h[0]
  {
    h[1..1 + h[0]]
  }

  /** The header block after write_head: only the first 1+n words change (kernel/log.c:107-111). */
  function PutHead(h: Block, blocks: seq<int>): (r: Block)
    requires |blocks| <= LOGSIZE
    ensures r[0] == |blocks| && Recorded(r) == blocks
  {
    [|blocks|] + blocks + h[1 + |blocks|..]
  }

  /** Distinct block numbers on the disk and outside the log area, few enough for the log. */
  ghost predicate HomeBlocks(a: Area, size: nat, blocks: seq<int>) {
    && |blocks| <= LOGSIZE && |blocks| < a.size
    && (forall t | 0 <= t < |blocks| :: 0 <= blocks[t] < size && !a.Has(blocks[t]))
    && AllDiffer(blocks)
  }

  /** A disk whose header block is meaningful. */
  ghost predicate LogOk(a: Area, d: seq<Block>) {
    && 1 <= a.size && a.start + a.size <= |d|
    && 0 <= d[a.start][0] <= LOGSIZE
    && HomeBlocks(a, |d|, Recorded(d[a.start]))
  }

  /** A disk with nothing to recover. */
  ghost predicate Idle(a: Area, d: seq<Block>) {
    LogOk(a, d) && d[a.start][0] == 0
  }

  ghost predicate TxnOk(a: Area, d: seq<Block>, t: Txn) {
    HomeBlocks(a, |d|, t.blocks) && |t.data| == |t.blocks|
  }

  /** Disks `d` and `e` agree at block `b`. */
  ghost predicate Agree(d: seq<Block>, e: seq<Block>, b: nat)
    requires b < |d| && b < |e|
  {
    d[b] == e[b]
  }

  /** Agreement outside the log area. */
  ghost predicate SameHome(a: Area, d: seq<Block>, e: seq<Block>) {
    |d| == |e| && forall b: nat | b < |d| && !a.Has(b) :: Agree(d, e, b)
  }

  lemma SameHomeRefl(a: Area, d: seq<Block>)
    ensures SameHome(a, d, d)
  {
    forall b: nat | b < |d| ensures Agree(d, d, b) {}
  }

  lemma SameHomeTrans(a: Area, d: seq<Block>, e: seq<Block>, f: seq<Block>)
    requires SameHome(a, d, e) && SameHome(a, e, f)
    ensures SameHome(a, d, f)
  {
    forall b: nat | b < |d| && !a.Has(b) ensures Agree(d, f, b) {
      assert Agree(d, e, b) && Agree(e, f, b);
    }
  }

  /** What disk `d` means at block `b`: the log block recorded for it, if any. */
  ghost function MeaningAt(a: Area, d: seq<Block>, b: nat): Block
    requires LogOk(a, d) && b < |d|
  {
    var r := Recorded(d[a.start]);
    var k := Slot(r, |r|, b);
    if k >= 0 then d[a.start + 1 + k] else d[b]
  }

  ghost predicate MeansAt(a: Area, d: seq<Block>, m: seq<Block>, b: nat)
    requires LogOk(a, d) && b < |d| && b < |m|
  {
    MeaningAt(a, d, b) == m[b]
  }

  /** Recovering disk `d` would give the home blocks of `m`. */
  ghost predicate Means(a: Area, d: seq<Block>, m: seq<Block>) {
    LogOk(a, d) && |d| == |m| && forall b: nat | b < |d| && !a.Has(b) :: MeansAt(a, d, m, b)
  }

  /** The effect a transaction is meant to have: its blocks get its data, others stay. */
  ghost function Updated(d: seq<Block>, t: Txn): (r: seq<Block>)
    requires |t.data| == |t.blocks|
    ensures |r| == |d|
  {
    seq(|d|, b requires 0 <= b < |d| =>
      var k := Slot(t.blocks, |t.blocks|, b); if k >= 0 then t.data[k] else d[b])
  }

  /** write_log: one write per logged block (kernel/log.c:183-190). */
  ghost function LogWrites(a: Area, t: Txn): (ws: seq<Write>)
    requires |t.data| == |t.blocks|
    ensures |ws| == |t.blocks|
  {
    seq(|t.blocks|, k requires 0 <= k < |t.blocks| => Write(a.start + 1 + k, t.data[k]))
  }

  ghost function HeadWrite(a: Area, d: seq<Block>, blocks: seq<int>): Write
    requires a.start < |d| && |blocks| <= LOGSIZE
  {
    Write(a.start, PutHead(d[a.start], blocks))
  }

  /** install_trans: copy every logged block home (kernel/log.c:69-83). */
  ghost function InstallWrites(a: Area, d: seq<Block>): (ws: seq<Write>)
    requires LogOk(a, d)
    ensures |ws| == d[a.start][0] && InRange(ws, |d|)
  {
    var r := Recorded(d[a.start]);
    seq(|r|, k requires 0 <= k < |r| => Write(r[k], d[a.start + 1 + k]))
  }

  /** recover_from_log: install, then clear the header (kernel/log.c:117-123). */
  ghost function RecoverWrites(a: Area, d: seq<Block>): (ws: seq<Write>)
    requires LogOk(a, d)
    ensures |ws| == d[a.start][0] + 1 && InRange(ws, |d|)
  {
    InstallWrites(a, d) + [HeadWrite(a, d, [])]
  }

  /** The writes up to and including the commit point: the log blocks, then the header. */
  ghost function SealWrites(a: Area, d: seq<Block>, t: Txn): (ws: seq<Write>)
    requires LogOk(a, d) && TxnOk(a, d, t)
    ensures |ws| == |t.blocks| + 1 && InRange(ws, |d|)
  {
    LogWrites(a, t) + [HeadWrite(a, d, t.blocks)]
  }

  /** The disk at the commit point. */
  ghost function Sealed(a: Area, d: seq<Block>, t: Txn): (e: seq<Block>)
    requires LogOk(a, d) && TxnOk(a, d, t)
    ensures LogOk(a, e) && SameHome(a, d, e) && Recorded(e[a.start]) == t.blocks
    ensures forall k | 0 <= k < |t.blocks| :: e[a.start + 1 + k] == t.data[k]
  {
    SealedOk(a, d, t);
    Apply(d, SealWrites(a, d, t))
  }

  /** commit (kernel/log.c:194-203): nothing when no block was logged; else log, header, install, clear. */
  ghost function CommitWrites(a: Area, d: seq<Block>, t: Txn): (ws: seq<Write>)
    requires LogOk(a, d) && TxnOk(a, d, t)
    ensures InRange(ws, |d|)
    ensures |ws| == if t.blocks == [] then 0 else 2 * |t.blocks| + 2
  {
    if t.blocks == [] then []
    else SealWrites(a, d, t) + RecoverWrites(a, Sealed(a, d, t))
  }

  /** After log and header writes the disk records the transaction, with home blocks untouched. */
  lemma SealedOk(a: Area, d: seq<Block>, t: Txn)
    requires LogOk(a, d) && TxnOk(a, d, t)
    ensures var e := Apply(d, SealWrites(a, d, t));
            && LogOk(a, e) && SameHome(a, d, e) && Recorded(e[a.start]) == t.blocks
            && forall k | 0 <= k < |t.blocks| :: e[a.start + 1 + k] == t.data[k]
  {
    var ws := SealWrites(a, d, t);
    var e := Apply(d, ws);
    forall k | 0 <= k < |t.blocks| ensures e[a.start + 1 + k] == t.data[k] {
      AfterAt(d, ws, |ws|, a.start + 1 + k);
      assert ws[k].bno == a.start + 1 + k;
    }
    forall b: nat | b < |d| && !a.Has(b) ensures Agree(d, e, b) {
      AfterAt(d, ws, |ws|, b);
    }
  }

  /** The effect of the first `j` install writes on block `b`. */
  lemma InstallAt(a: Area, d: seq<Block>, j: nat, b: nat)
    requires LogOk(a, d) && j <= d[a.start][0] && b < |d|
    ensures var k := Slot(Recorded(d[a.start]), j, b);
            After(d, InstallWrites(a, d), j)[b] == if k >= 0 then d[a.start + 1 + k] else d[b]
  {
    var r, ws := Recorded(d[a.start]), InstallWrites(a, d);
    AfterAt(d, ws, j, b);
    SlotIsLast(r, ws, j, b);
  }

  lemma {:induction false} SlotIsLast(r: seq<int>, ws: seq<Write>, n: nat, b: int)
    requires |r| == |ws| && n <= |r| && forall i | 0 <= i < |r| :: ws[i].bno == r[i]
    ensures LastTo(ws, n, b) == Slot(r, n, b)
  {
    if n > 0 {
      SlotIsLast(r, ws, n - 1, b);
    }
  }

  /** Installing writes no block of the log area. */
  lemma InstallKeepsLog(a: Area, d: seq<Block>, j: nat)
    requires LogOk(a, d) && j <= d[a.start][0]
    ensures var e := After(d, InstallWrites(a, d), j);
            LogOk(a, e) && forall b | a.Has(b) :: e[b] == d[b]
  {
    var e := After(d, InstallWrites(a, d), j);
    forall b | a.Has(b) ensures e[b] == d[b] {
      InstallAt(a, d, j, b);
    }
    assert e[a.start] == d[a.start];
  }

  /** Installing any part of the log does not change what the disk means. */
  lemma InstallPrefixAt(a: Area, d: seq<Block>, j: nat, b: nat)
    requires LogOk(a, d) && j <= d[a.start][0] && b < |d|
    ensures var e := After(d, InstallWrites(a, d), j);
            LogOk(a, e) && MeaningAt(a, e, b) == MeaningAt(a, d, b)
  {
    InstallKeepsLog(a, d, j);
    InstallAt(a, d, j, b);
    assert a.Has(a.start);
    var r := Recorded(d[a.start]);
    var k := Slot(r, |r|, b);
    assert k >= 0 ==> a.Has(a.start + 1 + k);
  }

  lemma InstallPrefix(a: Area, d: seq<Block>, j: nat, m: seq<Block>)
    requires Means(a, d, m) && j <= d[a.start][0]
    ensures Means(a, After(d, InstallWrites(a, d), j), m)
  {
    var e := After(d, InstallWrites(a, d), j);
    InstallKeepsLog(a, d, j);
    forall b: nat | b < |e| && !a.Has(b) ensures MeansAt(a, e, m, b) {
      assert MeansAt(a, d, m, b);
      InstallPrefixAt(a, d, j, b);
    }
  }

  /** Installing all of it brings the meaning home. */
  lemma InstallAll(a: Area, d: seq<Block>, m: seq<Block>)
    requires Means(a, d, m)
    ensures SameHome(a, Apply(d, InstallWrites(a, d)), m)
  {
    var e := Apply(d, InstallWrites(a, d));
    forall b: nat | b < |d| && !a.Has(b) ensures Agree(e, m, b) {
      assert MeansAt(a, d, m, b);
      InstallAt(a, d, d[a.start][0], b);
    }
  }

  /** An idle disk means what it holds. */
  lemma IdleMeans(a: Area, d: seq<Block>, m: seq<Block>)
    requires Idle(a, d) && SameHome(a, d, m)
    ensures Means(a, d, m)
  {
    forall b: nat | b < |d| && !a.Has(b) ensures MeansAt(a, d, m, b) {
      assert Agree(d, m, b);
    }
  }

  /** Clearing the header leaves an idle disk with the same home blocks. */
  lemma ClearHead(a: Area, d: seq<Block>, m: seq<Block>)
    requires LogOk(a, d) && SameHome(a, d, m)
    ensures var e := d[a.start := PutHead(d[a.start], [])];
            Idle(a, e) && SameHome(a, e, m)
  {
    var e := d[a.start := PutHead(d[a.start], [])];
    forall b: nat | b < |d| && !a.Has(b) ensures Agree(e, m, b) {
      assert Agree(d, m, b);
    }
  }

  /** A crash during recovery loses nothing: whatever prefix of the recovery writes reached the
      disk, the disk means the same; and a completed recovery brings the meaning home. */
  lemma RecoverPrefix(a: Area, d: seq<Block>, j: nat, m: seq<Block>)
    requires Means(a, d, m) && j <= |RecoverWrites(a, d)|
    ensures var e := After(d, RecoverWrites(a, d), j);
            && Means(a, e, m)
            && (j == |RecoverWrites(a, d)| ==> Idle(a, e) && SameHome(a, e, m))
  {
    var iw, rw := InstallWrites(a, d), RecoverWrites(a, d);
    var e := After(d, rw, j);
    if j <= |iw| {
      AfterPrefix(d, rw, iw, j);
      InstallPrefix(a, d, j, m);
    } else {
      AfterPrefix(d, rw, iw, |iw|);
      var f := Apply(d, iw);
      InstallAll(a, d, m);
      InstallKeepsLog(a, d, |iw|);
      assert a.Has(a.start);
      ClearHead(a, f, m);
      assert e == f[a.start := PutHead(f[a.start], [])];
      IdleMeans(a, e, m);
    }
  }

  /** The sealed disk means the updated disk. */
  lemma SealedMeaning(a: Area, d: seq<Block>, t: Txn)
    requires LogOk(a, d) && TxnOk(a, d, t)
    ensures Means(a, Sealed(a, d, t), Updated(d, t))
  {
    var e := Sealed(a, d, t);
    forall b: nat | b < |e| && !a.Has(b) ensures MeansAt(a, e, Updated(d, t), b) {
      assert Agree(d, e, b);
    }
  }

  /** Before the header write the disk still means the old state. */
  lemma LogPrefixMeaning(a: Area, d: seq<Block>, t: Txn, k: nat)
    requires Idle(a, d) && TxnOk(a, d, t) && k <= |t.blocks|
    ensures InRange(LogWrites(a, t), |d|)
    ensures Means(a, After(d, LogWrites(a, t), k), d)
  {
    var ws := LogWrites(a, t);
    var e := After(d, ws, k);
    AfterAt(d, ws, k, a.start);
    forall b: nat | b < |d| && !a.Has(b) ensures Agree(e, d, b) {
      AfterAt(d, ws, k, b);
    }
    IdleMeans(a, e, d);
  }

  /** After the commit point a commit does what a recovery would do. */
  lemma CommitTail(a: Area, d: seq<Block>, t: Txn, j: nat)
    requires LogOk(a, d) && TxnOk(a, d, t) && t.blocks != [] && j <= |t.blocks| + 1
    ensures After(d, CommitWrites(a, d, t), |t.blocks| + 1 + j) ==
              After(Sealed(a, d, t), RecoverWrites(a, Sealed(a, d, t)), j)
  {
    AfterConcat(d, SealWrites(a, d, t), RecoverWrites(a, Sealed(a, d, t)), j);
  }

  /** The home blocks a commit cut after `k` writes stands for. */
  ghost function Outcome(d: seq<Block>, t: Txn, k: nat): seq<Block>
    requires |t.data| == |t.blocks|
  {
    if k > |t.blocks| then Updated(d, t) else d
  }


  lemma EarlyCut(a: Area, d: seq<Block>, t: Txn, k: nat)
    requires Idle(a, d) && TxnOk(a, d, t) && k <= |t.blocks|
    ensures Means(a, After(d, CommitWrites(a, d, t), k), d)
    ensures t.blocks == [] ==> After(d, CommitWrites(a, d, t), k) == d
  {
    LogPrefixMeaning(a, d, t, k);
    AfterPrefix(d, CommitWrites(a, d, t), LogWrites(a, t), k);
  }

  lemma LateCut(a: Area, d: seq<Block>, t: Txn, j: nat)
    requires LogOk(a, d) && TxnOk(a, d, t) && t.blocks != [] && j <= |t.blocks| + 1
    ensures var e := After(d, CommitWrites(a, d, t), |t.blocks| + 1 + j);
            Means(a, e, Updated(d, t)) && (j == |t.blocks| + 1 ==> Idle(a, e) && SameHome(a, e, Updated(d, t)))
  {
    CommitTail(a, d, t, j);
    SealedMeaning(a, d, t);
    RecoverPrefix(a, Sealed(a, d, t), j, Updated(d, t));
  }

  /** A commit cut after `k` block writes means the new state exactly when the header write was
      among them, and a commit that is not cut brings it home. */
  lemma CommitPrefixMeaning(a: Area, d: seq<Block>, t: Txn, k: nat)
    requires Idle(a, d) && TxnOk(a, d, t) && k <= |CommitWrites(a, d, t)|
    ensures var e := After(d, CommitWrites(a, d, t), k);
            && Means(a, e, Outcome(d, t, k))
            && (k == |CommitWrites(a, d, t)| ==> Idle(a, e) && SameHome(a, e, Outcome(d, t, k)))
  {
    hide After, CommitWrites, Updated, Means, LogOk, HomeBlocks;
    if k <= |t.blocks| {
      EarlyCut(a, d, t, k);
      forall b: nat | b < |d| ensures Agree(d, d, b) {}
    } else {
      LateCut(a, d, t, k - |t.blocks| - 1);
    }
  }

  /** A run of recoveries that each crash after the given number of block writes. */
  ghost function CrashedRecoveries(a: Area, d: seq<Block>, crashes: seq<nat>): (e: seq<Block>)
    requires LogOk(a, d)
    ensures LogOk(a, e) && |e| == |d|
    decreases |crashes|
  {
    if crashes == [] then d
    else
      var ws := RecoverWrites(a, d);
      var j := if crashes[0] <= |ws| then crashes[0] else |ws|;
      RecoveryKeepsLog(a, d, j);
      CrashedRecoveries(a, After(d, ws, j), crashes[1..])
  }

  lemma RecoveryKeepsLog(a: Area, d: seq<Block>, j: nat)
    requires LogOk(a, d) && j <= |RecoverWrites(a, d)|
    ensures LogOk(a, After(d, RecoverWrites(a, d), j))
  {
    var m := seq(|d|, b requires 0 <= b < |d| => MeaningAt(a, d, b));
    forall b: nat | b < |d| ensures MeansAt(a, d, m, b) {}
    RecoverPrefix(a, d, j, m);
  }

  lemma {:induction false} CrashedRecoveriesMean(a: Area, d: seq<Block>, crashes: seq<nat>, m: seq<Block>)
    requires Means(a, d, m)
    ensures Means(a, CrashedRecoveries(a, d, crashes), m)
    decreases |crashes|
  {
    if crashes != [] {
      var ws := RecoverWrites(a, d);
      var j := if crashes[0] <= |ws| then crashes[0] else |ws|;
      RecoverPrefix(a, d, j, m);
      CrashedRecoveriesMean(a, After(d, ws, j), crashes[1..], m);
    }
  }

  /** The disk after a recovery that runs to its end. */
  ghost function Recovered(a: Area, d: seq<Block>): (e: seq<Block>)
    requires LogOk(a, d)
    ensures |e| == |d|
  {
    Apply(d, RecoverWrites(a, d))
  }

  /** Crash atomicity. Cut a commit after any number of block writes, let any number of recoveries
      crash at any point, then recover: the home blocks hold all of the transaction or none of it,
      all of it exactly when the header write reached the disk, and no other home block changed. */
  lemma CrashAtomicity(a: Area, d: seq<Block>, t: Txn, k: nat, crashes: seq<nat>)
    requires Idle(a, d) && TxnOk(a, d, t) && k <= |CommitWrites(a, d, t)|
    ensures var cut := After(d, CommitWrites(a, d, t), k);
            && LogOk(a, cut)
            && var e := Recovered(a, CrashedRecoveries(a, cut, crashes));
               Idle(a, e) && SameHome(a, e, Outcome(d, t, k))
  {
    var cut := After(d, CommitWrites(a, d, t), k);
    var m := Outcome(d, t, k);
    CommitPrefixMeaning(a, d, t, k);
    CrashedRecoveriesMean(a, cut, crashes, m);
    var f := CrashedRecoveries(a, cut, crashes);
    RecoverPrefix(a, f, |RecoverWrites(a, f)|, m);
  }

  /** One event of a system's life: a transaction that commits, or one whose commit is cut by a
      crash, followed by interrupted recoveries and one that completes. */
  datatype Event = Commit(t: Txn) | Crash(t: Txn, k: nat, crashes: seq<nat>) {
    /** The event's header write reached the disk (block write number n+1 of 2n+2). */
    predicate Takes() {
      t.blocks != [] && (Commit? || k > |t.blocks|)
    }
  }

  /** How many of the event's commit writes reach the disk. */
  ghost function CutAt(a: Area, d: seq<Block>, e: Event): (k: nat)
    requires LogOk(a, d) && TxnOk(a, d, e.t)
    ensures k <= |CommitWrites(a, d, e.t)|
    ensures (k > |e.t.blocks|) == e.Takes() && (e.Commit? ==> k == |CommitWrites(a, d, e.t)|)
  {
    var n := |CommitWrites(a, d, e.t)|;
    if e.Crash? && e.k <= n then e.k else n
  }

  /** The disk after one event. */
  ghost function Step(a: Area, d: seq<Block>, e: Event): (r: seq<Block>)
    requires Idle(a, d) && TxnOk(a, d, e.t)
    ensures |r| == |d|
  {
    var cut := After(d, CommitWrites(a, d, e.t), CutAt(a, d, e));
    CommitPrefixMeaning(a, d, e.t, CutAt(a, d, e));
    if e.Commit? then cut else Recovered(a, CrashedRecoveries(a, cut, e.crashes))
  }

  /** An event's transaction takes effect, unless its header write was cut off, and then nothing
      does. */
  lemma StepEffect(a: Area, d: seq<Block>, e: Event)
    requires Idle(a, d) && TxnOk(a, d, e.t)
    ensures Idle(a, Step(a, d, e))
    ensures SameHome(a, Step(a, d, e), if e.Takes() then Updated(d, e.t) else d)
  {
    CommitPrefixMeaning(a, d, e.t, CutAt(a, d, e));
    if e.Crash? { CrashAtomicity(a, d, e.t, CutAt(a, d, e), e.crashes); }
  }

  /** From an idle disk `d`, the event `e` leads to disk `d'`. */
  ghost predicate StepTo(a: Area, d: seq<Block>, e: Event, d': seq<Block>) {
    TxnOk(a, d, e.t) && (Idle(a, d) ==> d' == Step(a, d, e))
  }

  /** What the events that took effect, in order, make of the home blocks. */
  ghost function Committed(d: seq<Block>, es: seq<Event>, n: nat): (r: seq<Block>)
    requires n <= |es| && forall i | 0 <= i < |es| :: |es[i].t.data| == |es[i].t.blocks|
    ensures |r| == |d|
  {
    if n == 0 then d
    else if es[n - 1].Takes() then Updated(Committed(d, es, n - 1), es[n - 1].t)
    else Committed(d, es, n - 1)
  }

  /** From `s` to `s'` the event `e` has its effect, or none if it does not take. */
  ghost predicate Effect(a: Area, s: seq<Block>, e: Event, s': seq<Block>)
    requires |e.t.data| == |e.t.blocks|
  {
    SameHome(a, s', if e.Takes() then Updated(s, e.t) else s)
  }

  /** One event's effect, seen on any disk that agrees at home. */
  lemma Advance(a: Area, s: seq<Block>, s': seq<Block>, c: seq<Block>, e: Event)
    requires |e.t.data| == |e.t.blocks|
    requires Effect(a, s, e, s') && SameHome(a, s, c)
    ensures Effect(a, c, e, s')
  {
    if e.Takes() {
      forall b: nat | b < |s| && !a.Has(b) ensures Agree(Updated(s, e.t), Updated(c, e.t), b) {
        assert Agree(s, c, b);
      }
      SameHomeTrans(a, s', Updated(s, e.t), Updated(c, e.t));
    } else {
      SameHomeTrans(a, s', s, c);
    }
  }

  lemma StepToEffect(a: Area, d: seq<Block>, e: Event, d': seq<Block>)
    requires Idle(a, d) && StepTo(a, d, e, d')
    ensures Idle(a, d') && Effect(a, d, e, d')
  {
    StepEffect(a, d, e);
  }

  /** Over a whole life of commits, crashes and interrupted recoveries, the disk always ends idle
      and its home blocks are what the committed transactions, in order, make of the initial disk. */
  lemma {:induction false} RunIsCommitted(a: Area, ds: seq<seq<Block>>, es: seq<Event>, n: nat)
    requires n < |ds| && n <= |es| && Idle(a, ds[0])
    requires forall i | 0 <= i < |es| :: |es[i].t.data| == |es[i].t.blocks|
    requires forall i: nat | i < n :: StepTo(a, ds[i], es[i], ds[i + 1])
    ensures Idle(a, ds[n]) && SameHome(a, ds[n], Committed(ds[0], es, n))
  {
    hide Idle, SameHome, StepTo, Updated, Step, TxnOk;
    if n == 0 {
      SameHomeRefl(a, ds[0]);
    } else {
      RunIsCommitted(a, ds, es, n - 1);
      assert StepTo(a, ds[n - 1], es[n - 1], ds[n - 1 + 1]);
      StepToEffect(a, ds[n - 1], es[n - 1], ds[n]);
      Advance(a, ds[n - 1], ds[n], Committed(ds[0], es, n - 1), es[n - 1]);
    }
  }
}
