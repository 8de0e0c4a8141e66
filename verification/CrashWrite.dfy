/** The file system on top of the log: the blocks of a file-system state on disk, and an operation whose changed blocks
    are all logged (kernel/fs.c, kernel/file.c) as one transaction (kernel/log.c). */
module CrashWrite {
  import B = Blocks
  import opened LogSpec
  import opened FsState
  import opened Fs
  import Mkfs

  /** Word `w` of struct dinode (kernel/fs.h:32-39): four 16-bit numbers, the size, the block numbers. */
  function DinodeWord(d: Dinode, w: nat): int
    requires w < 16
  {
    if w == 0 then d.typ + 0x1_0000 * d.major else if w == 1 then d.minor + 0x1_0000 * d.nlink
    else if w == 2 then d.size else d.addrs[w - 3]
  }

  /** Block `j` of the inodes, sixteen to a block. */
  ghost function InodeBlock(nodes: seq<Dinode>, j: nat): B.Block {
    seq(B.WORDS, w requires 0 <= w < B.WORDS =>
      if IPB * j + w / 16 < |nodes| then DinodeWord(nodes[IPB * j + w / 16], w % 16) else 0)
  }

  ghost function DataBlock(b: Block): B.Block { seq(B.WORDS, w requires 0 <= w < B.WORDS => Word(b, w)) }

  /** What block `b` of the disk holds in state `s`. */
  ghost function BlockOf(s: State, b: nat): B.Block
    requires b < |s.disk|
  {
    if s.sb.inodestart <= b < s.sb.bmapstart then InodeBlock(s.nodes, b - s.sb.inodestart) else DataBlock(s.disk[b])
  }

  /** The whole disk; what it says of the log area does not matter. */
  ghost function Image(s: State): (d: seq<B.Block>)
    ensures |d| == |s.disk|
  {
    seq(|s.disk|, b requires 0 <= b < |s.disk| => BlockOf(s, b))
  }

  /** The disk's layout (kernel/fs.h:8-10): the log, which can hold an operation, then the inodes, then the bitmap. */
  ghost predicate Layout(a: Area, sb: Super) {
    && MAXOPBLOCKS < a.size && a.start + a.size <= sb.inodestart <= sb.bmapstart
    && forall i: nat | i < sb.ninodes :: sb.IBlock(i) < sb.bmapstart
  }

  /** mkfs lays the disk out so, with a log of 30 blocks from block 2 on (mkfs/mkfs.c:93-104). */
  lemma MkfsLayout()
    ensures Mkfs.SB.Ok() && Layout(Area(2, 30), Mkfs.SB)
  {
    Mkfs.SuperOk();
  }

  /** Blocks of bytes, and 16-bit numbers in the inodes. */
  ghost predicate Sound(s: State) {
    && (forall b: nat | b < |s.disk| :: OfBytes(s.disk[b]))
    && (forall i: nat | i < |s.nodes| :: Narrow(s.nodes[i]))
  }

  ghost predicate OfBytes(b: Block) { forall i: nat | i < BSIZE :: b[i] < 256 }

  ghost predicate Narrow(d: Dinode) {
    d.typ < 0x1_0000 && d.major < 0x1_0000 && d.minor < 0x1_0000 && d.nlink < 0x1_0000
  }

  lemma HalvesTell(x: nat, y: nat, x': nat, y': nat)
    requires x < 0x1_0000 && x' < 0x1_0000 && x + 0x1_0000 * y == x' + 0x1_0000 * y'
    ensures x == x' && y == y'
  {
  }

  lemma DinodeTells(d: Dinode, e: Dinode)
    requires Narrow(d) && Narrow(e) && forall w: nat | w < 16 :: DinodeWord(d, w) == DinodeWord(e, w)
    ensures d == e
  {
    assert DinodeWord(d, 0) == DinodeWord(e, 0) && DinodeWord(d, 1) == DinodeWord(e, 1);
    assert DinodeWord(d, 2) == DinodeWord(e, 2);
    HalvesTell(d.typ, d.major, e.typ, e.major);
    HalvesTell(d.minor, d.nlink, e.minor, e.nlink);
    forall j: nat | j < NDIRECT + 1 ensures d.addrs[j] == e.addrs[j] {
      assert DinodeWord(d, j + 3) == DinodeWord(e, j + 3);
    }
  }

  lemma WordTells(b: Block, c: Block, k: nat, j: nat)
    requires OfBytes(b) && OfBytes(c) && k < NINDIRECT && j < 4 && Word(b, k) == Word(c, k)
    ensures b[4 * k + j] == c[4 * k + j]
  {
    BytesTell(b[4 * k], b[4 * k + 1], b[4 * k + 2], b[4 * k + 3], c[4 * k], c[4 * k + 1], c[4 * k + 2], c[4 * k + 3]);
    assert j == 0 || j == 1 || j == 2 || j == 3;
  }

  lemma BytesTell(b0: nat, b1: nat, b2: nat, b3: nat, c0: nat, c1: nat, c2: nat, c3: nat)
    requires b0 < 256 && b1 < 256 && b2 < 256 && b3 < 256 && c0 < 256 && c1 < 256 && c2 < 256 && c3 < 256
    requires b0 + 256 * b1 + 0x1_0000 * b2 + 0x100_0000 * b3 == c0 + 256 * c1 + 0x1_0000 * c2 + 0x100_0000 * c3
    ensures b0 == c0 && b1 == c1 && b2 == c2 && b3 == c3
  {
    LowTells(b0, b1 + 256 * b2 + 0x1_0000 * b3, c0, c1 + 256 * c2 + 0x1_0000 * c3);
    LowTells(b1, b2 + 256 * b3, c1, c2 + 256 * c3);
    LowTells(b2, b3, c2, c3);
  }

  lemma LowTells(x: nat, y: nat, x': nat, y': nat)
    requires x < 256 && x' < 256 && x + 256 * y == x' + 256 * y'
    ensures x == x' && y == y'
  {
  }

  lemma BlockTells(b: Block, c: Block)
    requires OfBytes(b) && OfBytes(c) && DataBlock(b) == DataBlock(c)
    ensures b == c
  {
    hide OfBytes;
    forall i: nat | i < BSIZE ensures b[i] == c[i] {
      assert DataBlock(b)[i / 4] == DataBlock(c)[i / 4];
      WordTells(b, c, i / 4, i % 4);
    }
  }

  /** What the home blocks tell of an inode. */
  lemma InodeTells(a: Area, s: State, t: State, i: nat)
    requires s.Shape() && t.Shape() && Sound(s) && Sound(t) && s.sb == t.sb && Layout(a, s.sb)
    requires SameHome(a, Image(s), Image(t)) && i < |s.nodes|
    ensures t.nodes[i] == s.nodes[i]
  {
    var b, j := s.sb.IBlock(i), i / IPB;
    assert b < s.sb.meta && b == s.sb.inodestart + j;
    assert Agree(Image(s), Image(t), b);
    assert InodeBlock(s.nodes, j) == InodeBlock(t.nodes, j);
    forall w: nat | w < 16 ensures DinodeWord(s.nodes[i], w) == DinodeWord(t.nodes[i], w) {
      InodeWord(s.nodes, i, w);
      InodeWord(t.nodes, i, w);
    }
    DinodeTells(s.nodes[i], t.nodes[i]);
  }

  lemma InodeWord(nodes: seq<Dinode>, i: nat, w: nat)
    requires i < |nodes| && w < 16
    ensures InodeBlock(nodes, i / IPB)[16 * (i % IPB) + w] == DinodeWord(nodes[i], w)
  {
    WordPlace(i % IPB, w);
    assert IPB * (i / IPB) + i % IPB == i;
  }

  lemma WordPlace(k: nat, w: nat)
    requires w < 16
    ensures (16 * k + w) / 16 == k && (16 * k + w) % 16 == w
  {
  }

  lemma DataTells(a: Area, s: State, t: State, b: nat)
    requires s.Shape() && t.Shape() && Sound(s) && Sound(t) && s.sb == t.sb && Layout(a, s.sb)
    requires SameHome(a, Image(s), Image(t)) && s.sb.meta <= b < s.sb.size
    ensures t.disk[b] == s.disk[b]
  {
    hide OfBytes;
    assert s.sb.BBlock(0) < s.sb.meta;
    assert Agree(Image(s), Image(t), b);
    BlockTells(s.disk[b], t.disk[b]);
  }

  lemma ByteTells(a: Area, s: State, t: State, i: nat, x: nat)
    requires s.Owned() && t.Owned() && Sound(s) && Sound(t) && s.sb == t.sb && Layout(a, s.sb)
    requires SameHome(a, Image(s), Image(t)) && i < |s.nodes| && x < MAXFILE * BSIZE
    ensures t.ByteOf(i, x) == s.ByteOf(i, x)
  {
    hide Sound, Layout, SameHome, Word;
    InodeTells(a, s, t, i);
    if s.At(i, Ind) != 0 { HeldAt(s, i, Ind); DataTells(a, s, t, s.At(i, Ind)); }
    assert t.At(i, SlotOf(x / BSIZE)) == s.At(i, SlotOf(x / BSIZE));
    if s.At(i, SlotOf(x / BSIZE)) != 0 {
      HeldAt(s, i, SlotOf(x / BSIZE));
      DataTells(a, s, t, s.At(i, SlotOf(x / BSIZE)));
    }
  }

  /** The home blocks tell what every file holds. */
  lemma ImageTells(a: Area, s: State, t: State, i: nat)
    requires s.Inv() && t.Inv() && Sound(s) && Sound(t) && s.sb == t.sb && Layout(a, s.sb)
    requires SameHome(a, Image(s), Image(t)) && i < |s.nodes|
    ensures i < |t.nodes| && t.nodes[i] == s.nodes[i] && Contents(t, i) == Contents(s, i)
  {
    hide State.NodeOk, State.BitOk, State.At, State.ByteOf, Sound, Layout, SameHome;
    InodeTells(a, s, t, i);
    forall x: nat | x < |Contents(s, i)| ensures Contents(t, i)[x] == Contents(s, i)[x] { ByteTells(a, s, t, i, x); }
  }

  lemma ImageChanges(s: State, s': State, logged: set<nat>, b: nat)
    requires Changes(s, s', logged) && b < |s.disk| && b !in logged
    ensures BlockOf(s', b) == BlockOf(s, b)
  {
    assert LoggedAt(s.disk, s'.disk, logged, b);
    if s.sb.inodestart <= b < s.sb.bmapstart {
      var j := b - s.sb.inodestart;
      forall w: nat | w < B.WORDS && IPB * j + w / 16 < |s.nodes|
        ensures s'.nodes[IPB * j + w / 16] == s.nodes[IPB * j + w / 16]
      {
        InodePlace(s.sb, j, w / 16);
        assert NodeLogged(s, s', logged, IPB * j + w / 16);
      }
      assert InodeBlock(s'.nodes, j) == InodeBlock(s.nodes, j);
    }
  }

  lemma InodePlace(sb: Super, j: nat, k: nat)
    requires k < 16
    ensures sb.IBlock(IPB * j + k) == sb.inodestart + j
  {
  }

  /** The blocks of a transaction are those logged, in some order. */
  ghost predicate Lists(blocks: seq<int>, logged: set<nat>) {
    (forall b | b in blocks :: 0 <= b) && forall b: nat :: b in blocks <==> b in logged
  }

  lemma {:induction false} ListSize(blocks: seq<int>, logged: set<nat>)
    requires Lists(blocks, logged) && AllDiffer(blocks)
    ensures |blocks| == |logged|
    decreases |blocks|
  {
    if blocks == [] {
      forall b: nat ensures b !in logged { assert b in blocks <==> b in logged; }
    } else {
      var n := |blocks| - 1;
      assert blocks[n] in blocks && blocks == blocks[..n] + [blocks[n]];
      var last: nat := blocks[n];
      forall t: nat | t < n ensures blocks[..n][t] != last { assert Differ(blocks, t, n); }
      forall s: nat, t: nat | s < t < n ensures Differ(blocks[..n], s, t) { assert Differ(blocks, s, t); }
      forall b: int ensures b in blocks <==> b in blocks[..n] || b == last {}
      ListSize(blocks[..n], logged - {last});
    }
  }

  /** The blocks of one chunk of filewrite fit the log and lie outside of it. */
  lemma ChunkHome(a: Area, s: State, inum: nat, off: nat, n: nat, logged: set<nat>, blocks: seq<int>)
    requires s.Inv() && inum < |s.nodes| && Layout(a, s.sb) && n <= 3 * BSIZE
    requires Placed(s.sb, inum, {}, logged) && |logged| <= WriteBound(off, n)
    requires Lists(blocks, logged) && AllDiffer(blocks)
    ensures HomeBlocks(a, |s.disk|, blocks)
  {
    hide State.NodeOk, State.BitOk, State.Owned, WriteBound;
    ListSize(blocks, logged);
    ChunkBound(off, n);
    forall t: nat | t < |blocks| ensures 0 <= blocks[t] < |s.disk| && !a.Has(blocks[t]) {
      assert blocks[t] in blocks;
      var b: nat := blocks[t];
      assert b in logged;
    }
  }

  /** The transaction that takes the disk to state `s'`. */
  ghost function TxnTo(s': State, blocks: seq<int>): Txn
    requires forall t | 0 <= t < |blocks| :: 0 <= blocks[t] < |s'.disk|
  {
    Txn(blocks, seq(|blocks|, t requires 0 <= t < |blocks| => Image(s')[blocks[t]]))
  }

  /** Committed in full, it does. */
  lemma UpdatedImage(a: Area, d: seq<B.Block>, s: State, s': State, logged: set<nat>, blocks: seq<int>)
    requires Changes(s, s', logged) && Lists(blocks, logged) && HomeBlocks(a, |d|, blocks) && |d| == |s.disk|
    requires SameHome(a, d, Image(s))
    ensures SameHome(a, Updated(d, TxnTo(s', blocks)), Image(s'))
  {
    var t := TxnTo(s', blocks);
    var u := Updated(d, t);
    forall b: nat | b < |u| && !a.Has(b) ensures Agree(u, Image(s'), b) {
      var k := LogSpec.Slot(blocks, |blocks|, b);
      if k >= 0 {
        assert u[b] == t.data[k] == Image(s')[b];
      } else {
        assert b !in blocks && b !in logged;
        assert Agree(d, Image(s), b);
        ImageChanges(s, s', logged, b);
      }
    }
  }

  /** An operation is atomic: on a disk that holds state `s`, cut the commit of its blocks after any block write, let
      any number of recoveries crash, then recover. The disk holds `s'` if the commit's header was written
      and `s` if not; nothing in between. */
  lemma OperationAtomic(a: Area, d: seq<B.Block>, s: State, s': State, logged: set<nat>, blocks: seq<int>, k: nat,
                        crashes: seq<nat>)
    requires Idle(a, d) && SameHome(a, d, Image(s)) && Changes(s, s', logged) && Lists(blocks, logged)
    requires HomeBlocks(a, |d|, blocks)
    requires k <= |CommitWrites(a, d, TxnTo(s', blocks))|
    ensures var cut := B.After(d, CommitWrites(a, d, TxnTo(s', blocks)), k);
            && LogOk(a, cut)
            && var e := Recovered(a, CrashedRecoveries(a, cut, crashes));
               Idle(a, e) && SameHome(a, e, Image(if k > |blocks| then s' else s))
  {
    hide CommitWrites, B.After, Recovered, CrashedRecoveries, Updated, Image, Recorded;
    var t := TxnTo(s', blocks);
    CrashAtomicity(a, d, t, k, crashes);
    UpdatedImage(a, d, s, s', logged, blocks);
    var e := Recovered(a, CrashedRecoveries(a, B.After(d, CommitWrites(a, d, t), k), crashes));
    if k > |blocks| {
      SameHomeTrans(a, e, Updated(d, t), Image(s'));
    } else {
      SameHomeTrans(a, e, d, Image(s));
    }
  }

  /** A write that can read all its bytes is such an operation, whatever was logged before it: in particular each
      chunk of filewrite, in a transaction of its own. */
  lemma WriteChanges(s: State, s': State, inum: nat, off: nat, data: seq<nat>, logged: set<nat>)
    requires Written(s, s', inum, off, data, |data|) && AllLogged(s.disk, s'.disk, logged)
    requires NodesLogged(s, s', inum, logged)
    ensures Changes(s, s', logged) && s.Inv() && s'.Inv()
  {
    hide State.Inv;
    forall i: nat | i < |s.nodes| ensures NodeLogged(s, s', logged, i) {}
  }

  /** So a chunk of filewrite, in a transaction of its own, survives crashes whole or not at all: after recovery the
      disk holds a state in the file system's invariant in which the file has the data or is as it was, and
      all other files are as they were. */
  lemma WriteAtomic(a: Area, d: seq<B.Block>, s: State, s': State, inum: nat, off: nat, data: seq<nat>,
                    logged: set<nat>, blocks: seq<int>, k: nat, crashes: seq<nat>) returns (x: State)
    requires Written(s, s', inum, off, data, |data|) && AllLogged(s.disk, s'.disk, logged) && |data| <= 3 * BSIZE
    requires NodesLogged(s, s', inum, logged) && Placed(s.sb, inum, {}, logged) && |logged| <= WriteBound(off, |data|)
    requires off <= s.nodes[inum].size
    requires s'.nodes[inum].size == if off + |data| > s.nodes[inum].size then off + |data| else s.nodes[inum].size
    requires Idle(a, d) && SameHome(a, d, Image(s)) && Layout(a, s.sb) && Lists(blocks, logged) && AllDiffer(blocks)
    ensures HomeBlocks(a, |d|, blocks) && |s'.disk| == |s.disk| == |d|
    ensures k <= |CommitWrites(a, d, TxnTo(s', blocks))| ==>
              var cut := B.After(d, CommitWrites(a, d, TxnTo(s', blocks)), k);
              LogOk(a, cut) && SameHome(a, Recovered(a, CrashedRecoveries(a, cut, crashes)), Image(x))
    ensures x.Inv() && |x.nodes| == |s.nodes|
    ensures Contents(x, inum) == if k > |blocks| then Put(Contents(s, inum), off, data) else Contents(s, inum)
    ensures forall i: nat | i < |s.nodes| && i != inum :: Contents(x, i) == Contents(s, i)
  {
    hide State.Inv, CommitWrites, B.After, Recovered, CrashedRecoveries, Image, Contents, LogOk;
    ChunkHome(a, s, inum, off, |data|, logged, blocks);
    WriteChanges(s, s', inum, off, data, logged);
    if k <= |CommitWrites(a, d, TxnTo(s', blocks))| { OperationAtomic(a, d, s, s', logged, blocks, k, crashes); }
    WrittenContents(s, s', inum, off, data);
    x := if k > |blocks| then s' else s;
  }
}
