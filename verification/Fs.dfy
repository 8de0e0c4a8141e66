/** Block allocation and inode contents (kernel/fs.c) and the chunked filewrite (kernel/file.c).

    `disk` is the latest contents of every block as bread returns it, and `logged` collects the blocks
    that were passed to log_write. A kernel panic is a flag in the result: the kernel stops there. */
module Fs {
  import opened Basics
  import opened Bits
  import opened FsState

  /** An in-memory inode (struct inode). */
  class Inode {
    const inum: nat
    var typ: nat
    var major: nat
    var minor: nat
    var nlink: nat
    var size: nat
    var addrs: Addrs
    var ref: nat
    var valid: bool

    /** iget of an inode not in the table, followed by ilock (kernel/fs.c:262-272, 299-309). */
    constructor (inum: nat, d: Dinode)
      ensures this.inum == inum && D() == d && ref == 1 && valid
    {
      this.inum := inum;
      ref, valid := 1, true;
      typ, major, minor, nlink, size, addrs := d.typ, d.major, d.minor, d.nlink, d.size, d.addrs;
    }

    function D(): Dinode
      reads this
    {
      Dinode(typ, major, minor, nlink, size, addrs)
    }
  }

  /** All blocks are in use. */
  ghost predicate Full(sb: Super, disk: seq<Block>)
    requires sb.Ok() && |disk| == sb.size
  {
    forall c: nat | c < sb.size :: Used(sb, disk, c)
  }

  ghost predicate Used(sb: Super, disk: seq<Block>, c: nat)
    requires sb.Ok() && |disk| == sb.size && c < sb.size
  {
    assert sb.BBlock(c) < sb.meta;
    BitAt(sb, disk, c)
  }

  /** Where balloc finds the bit of block `b`. */
  lemma BitIn(sb: Super, disk: seq<Block>, base: nat, bi: nat, b: nat)
    requires sb.Ok() && |disk| == sb.size && b < sb.size && b / BPB == base / BPB && b % BPB == bi
    ensures sb.BBlock(b) == sb.BBlock(base) < |disk|
    ensures Used(sb, disk, b) <==> Bit(disk[sb.BBlock(base)][bi / 8], bi % 8)
  {
    hide Bit;
    assert sb.BBlock(b) < sb.meta;
  }

  lemma BitMath(base: nat, bi: nat)
    requires base % BPB == 0 && bi < BPB
    ensures (base + bi) / BPB == base / BPB && (base + bi) % BPB == bi == bi % BPB
  {
  }

  lemma BitToMod(block: Block, b: nat, c: nat)
    requires b % BPB == c % BPB
    ensures BitTo(block, b, true) == BitTo(block, c, true)
  {
    hide SetBit;
  }

  /** A block with a clear bit is a data block that no inode holds. */
  lemma FreeBlock(s: State, b: nat)
    requires s.Inv() && b < s.sb.size && !Used(s.sb, s.disk, b)
    ensures s.sb.meta <= b && b !in s.owner
  {
    assert s.BitOk(b);
  }

  /** The slot of `addrs[j]`. */
  function AddrSlot(j: nat): Slot { if j < NDIRECT then Direct(j) else Ind }

  /** Every changed block was logged. */
  ghost predicate AllLogged(before: seq<Block>, after: seq<Block>, logged: set<nat>) {
    |after| == |before| && forall b: nat | b < |before| :: LoggedAt(before, after, logged, b)
  }

  ghost predicate LoggedAt(before: seq<Block>, after: seq<Block>, logged: set<nat>, b: nat)
    requires b < |before| == |after|
  {
    after[b] == before[b] || b in logged
  }

  lemma AllLoggedTrans(d0: seq<Block>, d1: seq<Block>, d2: seq<Block>, l1: set<nat>, l2: set<nat>)
    requires AllLogged(d0, d1, l1) && AllLogged(d1, d2, l2) && l1 <= l2
    ensures AllLogged(d0, d2, l2)
  {
    forall b: nat | b < |d0| ensures LoggedAt(d0, d2, l2, b) {
      assert LoggedAt(d0, d1, l1, b) && LoggedAt(d1, d2, l2, b);
    }
  }

  lemma AllLoggedRefl(d: seq<Block>, logged: set<nat>)
    ensures AllLogged(d, d, logged)
  {
    forall c: nat | c < |d| ensures LoggedAt(d, d, logged, c) {}
  }

  lemma AllLoggedOne(d: seq<Block>, b: nat, data: Block, logged: set<nat>)
    requires b < |d| && b in logged
    ensures AllLogged(d, d[b := data], logged)
  {
    var d' := d[b := data];
    forall c: nat | c < |d| ensures LoggedAt(d, d', logged, c) {}
  }

  /** From `s` to `s'` only logged blocks changed, those of inodes included. */
  ghost predicate Changes(s: State, s': State, logged: set<nat>) {
    && s'.sb == s.sb && |s'.disk| == |s.disk| && |s'.nodes| == |s.nodes|
    && AllLogged(s.disk, s'.disk, logged)
    && forall i: nat | i < |s.nodes| :: NodeLogged(s, s', logged, i)
  }

  ghost predicate NodeLogged(s: State, s': State, logged: set<nat>, i: nat)
    requires i < |s.nodes| == |s'.nodes|
  {
    s'.nodes[i] == s.nodes[i] || s.sb.IBlock(i) in logged
  }

  /** Changes of bitmap and data blocks and of one inode. */
  lemma ChangesOne(s: State, s': State, inum: nat, logged: set<nat>)
    requires s'.sb == s.sb && inum < |s.nodes| == |s'.nodes| && AllLogged(s.disk, s'.disk, logged)
    requires s.sb.IBlock(inum) in logged && s'.nodes == s.nodes[inum := s'.nodes[inum]]
    ensures Changes(s, s', logged)
  {
    hide AllLogged;
    assert |s'.disk| == |s.disk| by { AllLoggedSize(s.disk, s'.disk, logged); }
    forall i: nat | i < |s.nodes| ensures NodeLogged(s, s', logged, i) {}
  }

  lemma AllLoggedSize(d: seq<Block>, d': seq<Block>, logged: set<nat>)
    requires AllLogged(d, d', logged)
    ensures |d'| == |d|
  {
  }

  function IndSet(ind: nat): set<nat> { if ind == 0 then {} else {ind} }

  /** What bmap and one write log: at most one bitmap block for the data block and one for the indirect
      block, the data block, and the indirect block. */
  ghost predicate Turn(logged: set<nat>, logged': set<nat>, maps: set<nat>, addr: nat, ind: nat, ind': nat) {
    && logged <= logged' <= logged + maps + {addr} + IndSet(ind')
    && |maps| <= 1 + (if ind == 0 && ind' != 0 then 1 else 0)
    && (ind != 0 ==> ind' == ind)
  }

  /** Blocks of the bitmap. */
  ghost predicate Low(maps: set<nat>, sb: Super) { forall m | m in maps :: sb.bmapstart <= m < sb.meta }

  /** What writei logs besides `logged`: the inode's block, bitmap blocks and data blocks. */
  ghost predicate Placed(sb: Super, inum: nat, logged: set<nat>, logged': set<nat>) {
    forall b | b in logged' && b !in logged :: b == sb.IBlock(inum) || sb.bmapstart <= b < sb.size
  }

  lemma PlacedTrans(sb: Super, inum: nat, l0: set<nat>, l1: set<nat>, l2: set<nat>)
    requires Placed(sb, inum, l0, l1) && Placed(sb, inum, l1, l2)
    ensures Placed(sb, inum, l0, l2) && Placed(sb, inum, l0, l2 + {sb.IBlock(inum)})
  {
  }

  lemma PlacedNone(sb: Super, inum: nat, logged: set<nat>)
    ensures Placed(sb, inum, logged, logged)
  {
  }

  lemma TurnPlaced(s: State, inum: nat, bn: nat, logged: set<nat>, logged': set<nat>,
                   maps: set<nat>, addr: nat, ind: nat)
    requires s.Inv() && inum < |s.nodes| && s.Mapped(inum, bn) && addr == s.At(inum, SlotOf(bn)) && Low(maps, s.sb)
    requires Turn(logged, logged', maps, addr, ind, s.nodes[inum].addrs[NDIRECT])
    ensures Placed(s.sb, inum, logged, logged')
  {
    hide State.At, State.NodeOk, State.BitOk;
    assert s.sb.BBlock(0) < s.sb.meta <= s.sb.size;
    HeldAt(s, inum, SlotOf(bn));
    AtInd(s, inum);
    if s.At(inum, Ind) != 0 { HeldAt(s, inum, Ind); }
  }

  lemma TurnNone(logged: set<nat>, addr: nat, ind: nat)
    ensures Turn(logged, logged, {}, addr, ind, ind)
  {
  }

  lemma TurnOne(logged: set<nat>, logged': set<nat>, map_: nat, addr: nat, ind: nat)
    ensures logged' == logged + {map_, addr} ==> Turn(logged, logged', {map_}, addr, ind, ind)
  {
  }

  lemma TurnEntry(logged: set<nat>, logged': set<nat>, map_: nat, addr: nat, ind: nat)
    ensures ind != 0 && logged' == logged + {map_, addr, ind} ==> logged <= logged'
    ensures ind != 0 && logged' == logged + {map_, addr, ind} ==> Turn(logged, logged', {map_}, addr, ind, ind)
  {
  }

  lemma TurnBoth(logged: set<nat>, logged1: set<nat>, logged2: set<nat>, maps: set<nat>, maps1: set<nat>, addr: nat,
                 ind: nat, ind': nat)
    requires ind' != 0 && Turn(logged1, logged2, maps1, addr, ind', ind') && |maps1| <= 1
    requires if ind == 0 then |maps| <= 1 && logged1 == logged + maps + {ind'}
             else ind' == ind && maps == {} && logged1 == logged
    ensures Turn(logged, logged2, maps + maps1, addr, ind, ind')
  {
    assert |maps + maps1| <= |maps| + |maps1|;
  }

  /** What `c` turns log; `first` is 1 when the first needed no new block. */
  ghost predicate Budget(logged: set<nat>, logged': set<nat>, maps: set<nat>, datas: set<nat>, ind: nat, ind': nat,
      c: nat, first: nat) {
    && logged <= logged' <= logged + maps + datas + IndSet(ind')
    && |datas| <= c && |maps| + first <= c + (if ind == 0 && ind' != 0 then 1 else 0)
    && (ind != 0 ==> ind' == ind)
  }

  lemma BudgetNone(logged: set<nat>, ind: nat)
    ensures Budget(logged, logged, {}, {}, ind, ind, 0, 0)
  {
  }

  lemma BudgetFirst(logged: set<nat>, logged': set<nat>, maps: set<nat>, addr: nat, ind: nat, ind': nat, first: nat)
    requires Turn(logged, logged', maps, addr, ind, ind') && (first == 0 || (first == 1 && maps == {}))
    ensures Budget(logged, logged', maps, {addr}, ind, ind', 1, first)
  {
  }

  lemma BudgetStep(logged: set<nat>, logged1: set<nat>, logged2: set<nat>, maps: set<nat>, maps1: set<nat>,
                   datas: set<nat>, addr: nat,
                   ind: nat, ind1: nat, ind2: nat, c: nat, first: nat)
    requires Budget(logged, logged1, maps, datas, ind, ind1, c, first)
    requires Turn(logged1, logged2, maps1, addr, ind1, ind2)
    ensures Budget(logged, logged2, maps + maps1, datas + {addr}, ind, ind2, c + 1, first)
  {
    assert |maps + maps1| <= |maps| + |maps1|;
  }

  lemma BudgetSize(logged: set<nat>, logged': set<nat>, maps: set<nat>, datas: set<nat>, ind: nat, ind': nat, c: nat,
                   first: nat, x: nat)
    requires Budget(logged, logged', maps, datas, ind, ind', c, first)
    ensures |logged' + {x} - logged| + first <= 2 * c + 3
  {
    UnionSize(logged, logged' + {x}, maps, datas, ind', x);
  }

  /** A piece of a file within one block. */
  lemma PieceOf(s: State, inum: nat, off: nat, count: nat, x: nat)
    requires s.Inv() && inum < |s.nodes| && off + count <= MAXFILE * BSIZE && off % BSIZE + count <= BSIZE
    requires off <= x < off + count
    requires s.At(inum, SlotOf(off / BSIZE)) != 0
    ensures s.At(inum, SlotOf(off / BSIZE)) < |s.disk|
    ensures s.ByteOf(inum, x) == s.disk[s.At(inum, SlotOf(off / BSIZE))][off % BSIZE + (x - off)]
  {
    hide State.At;
    HeldAt(s, inum, SlotOf(off / BSIZE));
    SameBlock(off, count, x);
  }

  lemma SameBlock(off: nat, count: nat, x: nat)
    requires off % BSIZE + count <= BSIZE
    ensures off <= x < off + count <==>
              count > 0 && x / BSIZE == off / BSIZE && off % BSIZE <= x % BSIZE < off % BSIZE + count
    ensures off <= x < off + count ==> x % BSIZE == off % BSIZE + (x - off)
  {
    assert x == x / BSIZE * BSIZE + x % BSIZE && off == off / BSIZE * BSIZE + off % BSIZE;
    if off <= x < off + count { assert x / BSIZE == off / BSIZE; }
  }

  /** The bytes `out` are those of the file from `off` on. */
  ghost predicate ReadFrom(s: State, inum: nat, off: nat, out: seq<nat>)
    requires s.Inv() && inum < |s.nodes|
  {
    off + |out| <= s.nodes[inum].size && out == Contents(s, inum)[off..off + |out|]
  }

  lemma ReadNone(s: State, inum: nat, off: nat)
    requires s.Inv() && inum < |s.nodes| && off <= s.nodes[inum].size
    ensures ReadFrom(s, inum, off, [])
  {
  }

  lemma ReadAll(s: State, inum: nat, off: nat, out: seq<nat>)
    requires s.Inv() && inum < |s.nodes| && ReadFrom(s, inum, off, out)
    ensures off + |out| <= s.nodes[inum].size && out == Contents(s, inum)[off..off + |out|]
  {
  }

  /** readi's test for overflow. */
  lemma WrapsIff(off: nat, n: nat)
    requires off < WRAP && n < WRAP
    ensures (off + n) % WRAP < off <==> off + n >= WRAP
  {
  }

  lemma ReadStep(s: State, inum: nat, off: nat, out: seq<nat>, count: nat)
    requires s.Inv() && inum < |s.nodes| && ReadFrom(s, inum, off, out) && off + |out| + count <= s.nodes[inum].size
    requires count > 0 && (off + |out|) % BSIZE + count <= BSIZE
    ensures (off + |out|) / BSIZE < MAXFILE && s.At(inum, SlotOf((off + |out|) / BSIZE)) != 0
    ensures s.At(inum, SlotOf((off + |out|) / BSIZE)) < |s.disk|
    ensures var y := (off + |out|) % BSIZE;
            ReadFrom(s, inum, off, out + s.disk[s.At(inum, SlotOf((off + |out|) / BSIZE))][y..y + count])
  {
    hide State.At, State.ByteOf;
    var pos := off + |out|;
    assert s.NodeOk(inum);
    NoHole(s, inum, pos);
    var a := s.At(inum, SlotOf(pos / BSIZE));
    HeldAt(s, inum, SlotOf(pos / BSIZE));
    var next := out + s.disk[a][pos % BSIZE..pos % BSIZE + count];
    forall j: nat | j < |next| ensures next[j] == Contents(s, inum)[off..off + |next|][j] {
      if j < |out| {
        assert out[j] == Contents(s, inum)[off..off + |out|][j];
      } else {
        PieceOf(s, inum, pos, count, off + j);
      }
    }
  }

  lemma NoHole(s: State, inum: nat, x: nat)
    requires s.Shape() && inum < |s.nodes| && s.NodeOk(inum) && x < s.nodes[inum].size
    ensures x / BSIZE < MAXFILE && s.At(inum, SlotOf(x / BSIZE)) != 0
  {
    hide State.At;
    assert x / BSIZE * BSIZE <= x;
    assert s.Mapped(inum, x / BSIZE);
  }

  /** Other inodes are as they were; of inode `inum` only addresses and size may change. */
  ghost predicate HeadKept(s: State, s': State, inum: nat, i: nat)
    requires i < |s.nodes| && i < |s'.nodes|
  {
    if i == inum then s'.nodes[i].(addrs := s.nodes[i].addrs, size := s.nodes[i].size) == s.nodes[i]
    else SameHead(s, s', i)
  }

  ghost predicate WrittenAt(s: State, s': State, inum: nat, off: nat, data: seq<nat>, k: nat, i: nat, x: nat)
    requires k <= |data| && s.Owned() && s'.Owned() && i < |s.nodes| && i < |s'.nodes| && x < MAXFILE * BSIZE
  {
    s'.ByteOf(i, x) == if i == inum && off <= x < off + k then data[x - off] else s.ByteOf(i, x)
  }

  /** From `s` to `s'` the first `k` bytes of `data` were written into file `inum` at `off`; no other byte of any
      file changed, and no block number was lost. */
  ghost predicate Written(s: State, s': State, inum: nat, off: nat, data: seq<nat>, k: nat) {
    && k <= |data| && s.Inv() && s'.Inv() && s'.sb == s.sb && |s'.nodes| == |s.nodes| && inum < |s.nodes|
    && (forall i: nat | i < |s.nodes| :: HeadKept(s, s', inum, i))
    && (forall i: nat, t: Slot | i < |s.nodes| && t.Ok() && s.At(i, t) != 0 :: AtSame(s, s', i, t))
    && (forall i: nat, x: nat | i < |s.nodes| && x < MAXFILE * BSIZE :: WrittenAt(s, s', inum, off, data, k, i, x))
  }

  lemma WrittenNone(s: State, inum: nat, off: nat, data: seq<nat>)
    requires s.Inv() && inum < |s.nodes|
    ensures Written(s, s, inum, off, data, 0)
  {
    hide State.At, State.ByteOf, State.NodeOk, State.BitOk;
    forall i: nat | i < |s.nodes| ensures HeadKept(s, s, inum, i) {}
    forall i: nat, t: Slot | i < |s.nodes| && t.Ok() ensures AtSame(s, s, i, t) {}
    forall i: nat, x: nat | i < |s.nodes| && x < MAXFILE * BSIZE ensures WrittenAt(s, s, inum, off, data, 0, i, x) {}
  }

  /** A second piece after the first. */
  lemma WrittenTrans(s: State, s1: State, s2: State, inum: nat, off: nat, data: seq<nat>, k: nat, more: seq<nat>,
                     part: nat)
    requires k + |more| <= |data| && more == data[k..k + |more|] && Written(s, s1, inum, off, data, k)
    requires Written(s1, s2, inum, off + k, more, part)
    ensures Written(s, s2, inum, off, data, k + part)
  {
    hide State.At, State.ByteOf, State.Inv;
    WrittenOwned(s, s1, inum, off, data, k);
    WrittenOwned(s1, s2, inum, off + k, more, part);
    var all := k + part;
    forall i: nat | i < |s.nodes| ensures HeadKept(s, s2, inum, i) {
      assert HeadKept(s, s1, inum, i) && HeadKept(s1, s2, inum, i);
    }
    forall i: nat, t: Slot | i < |s.nodes| && t.Ok() && s.At(i, t) != 0 ensures AtSame(s, s2, i, t) {
      assert AtSame(s, s1, i, t) && AtSame(s1, s2, i, t);
    }
    forall i: nat, x: nat | i < |s.nodes| && x < MAXFILE * BSIZE ensures WrittenAt(s, s2, inum, off, data, all, i, x) {
      assert WrittenAt(s, s1, inum, off, data, k, i, x) && WrittenAt(s1, s2, inum, off + k, more, part, i, x);
    }
  }

  lemma WrittenOwned(s: State, s': State, inum: nat, off: nat, data: seq<nat>, k: nat)
    requires Written(s, s', inum, off, data, k)
    ensures s.Owned() && s'.Owned() && s.Inv() && s'.Inv() && inum < |s.nodes| == |s'.nodes| && s'.sb == s.sb
  {
  }

  /** One piece of writei: bmap, and new bytes for part of the block. */
  lemma PieceWritten(s: State, s1: State, inum: nat, pos: nat, piece: seq<nat>)
    requires s.Inv() && s1.Inv() && SameFiles(s, s1) && inum < |s.nodes| && pos / BSIZE < MAXFILE
    requires pos % BSIZE + |piece| <= BSIZE
    requires |s1.nodes| == |s.nodes| && s1.At(inum, SlotOf(pos / BSIZE)) != 0
    ensures var b := s1.At(inum, SlotOf(pos / BSIZE));
            && b < |s1.disk|
            && var s2 := s1.Store(b, Splice(s1.disk[b], pos % BSIZE, piece));
               Written(s, s2, inum, pos, piece, |piece|) && s2.Inv() && s2.Mapped(inum, pos / BSIZE)
                   && s2.At(inum, SlotOf(pos / BSIZE)) == b
  {
    hide State.At, State.ByteOf, State.NodeOk, State.BitOk, Splice;
    var t0 := SlotOf(pos / BSIZE);
    var b := s1.At(inum, t0);
    HeldAt(s1, inum, t0);
    var block: Block := Splice(s1.disk[b], pos % BSIZE, piece);
    StoreInv(s1, b, block);
    var s2 := s1.Store(b, block);
    forall i: nat | i < |s.nodes| ensures HeadKept(s, s2, inum, i) { assert SameHead(s, s1, i); }
    forall i: nat, t: Slot | i < |s.nodes| && t.Ok() && s.At(i, t) != 0 ensures AtSame(s, s2, i, t) {
      assert AtSame(s, s1, i, t) && AtSame(s1, s2, i, t);
    }
    forall i: nat, x: nat | i < |s.nodes| && x < MAXFILE * BSIZE
      ensures WrittenAt(s, s2, inum, pos, piece, |piece|, i, x)
    {
      assert ByteSame(s, s1, i, x);
      StoreByte(s1, b, block, i, x);
      SameBlock(pos, |piece|, x);
      if s1.owner[b] == Own(i, SlotOf(x / BSIZE)) { PieceByte(s1, b, inum, pos, piece, i, x); }
    }
    assert AtSame(s1, s2, inum, t0);
  }

  lemma PieceByte(s: State, b: nat, inum: nat, pos: nat, piece: seq<nat>, i: nat, x: nat)
    requires s.Owned() && inum < |s.nodes| && i < |s.nodes| && pos / BSIZE < MAXFILE && x < MAXFILE * BSIZE
    requires pos % BSIZE + |piece| <= BSIZE
    requires b == s.At(inum, SlotOf(pos / BSIZE)) != 0 && b in s.owner && s.owner[b] == Own(inum, SlotOf(pos / BSIZE))
    requires b < |s.disk|
    requires s.owner[b] == Own(i, SlotOf(x / BSIZE))
    ensures x / BSIZE == pos / BSIZE && i == inum
    ensures Splice(s.disk[b], pos % BSIZE, piece)[x % BSIZE] == if pos <= x < pos + |piece| then piece[x - pos]
            else s.ByteOf(i, x)
  {
    hide State.At;
    SameBlock(pos, |piece|, x);
    assert s.OwnOk(b);
  }

  /** The number of blocks that hold the bytes [off, off + n). */
  function BlocksIn(off: nat, n: nat): nat {
    if n == 0 then 0 else (off + n - 1) / BSIZE - off / BSIZE + 1
  }

  lemma UnionSize(before: set<nat>, after: set<nat>, maps: set<nat>, datas: set<nat>, x: nat, y: nat)
    requires after <= before + maps + datas + {x, y}
    ensures |after - before| <= |maps| + |datas| + 2
  {
    var rest := maps + datas + {x, y};
    SubsetSize(after - before, rest);
    assert |rest| <= |maps + datas| + |{x, y}| && |maps + datas| <= |maps| + |datas|;
  }

  lemma StepBlocks(off: nat, tot: nat, count: nat)
    requires count > 0 && (off + tot) % BSIZE + count <= BSIZE && (tot == 0 || (off + tot) % BSIZE == 0)
    ensures BlocksIn(off, tot + count) == BlocksIn(off, tot) + 1
  {
    assert (off + tot + count - 1) / BSIZE == (off + tot) / BSIZE;
    if tot > 0 { assert (off + tot - 1) / BSIZE == (off + tot) / BSIZE - 1; }
  }

  lemma {:induction false} BlocksMono(off: nat, a: nat, b: nat)
    requires a <= b
    ensures BlocksIn(off, a) <= BlocksIn(off, b)
  {
  }

  /** writei refuses to leave a gap, to wrap around, and to outgrow the largest file (kernel/fs.c:492-495). */
  predicate Refused(size: nat, off: nat, n: nat) { off > size || off + n >= WRAP || off + n > MAXFILE * BSIZE }

  /** The blocks up to `end` of a file are there. */
  ghost predicate MappedTo(s: State, inum: nat, end: nat)
    requires s.Shape() && inum < |s.nodes|
  {
    forall bn: nat | bn * BSIZE < end :: s.Mapped(inum, bn)
  }

  lemma MappedStart(s: State, inum: nat, off: nat)
    requires s.Inv() && inum < |s.nodes| && off <= s.nodes[inum].size
    ensures MappedTo(s, inum, off)
    ensures off % BSIZE != 0 ==> off / BSIZE < MAXFILE && s.At(inum, SlotOf(off / BSIZE)) != 0
  {
    hide State.At;
    assert s.NodeOk(inum);
    if off % BSIZE != 0 { NoHole(s, inum, off - 1); }
  }

  lemma MappedMore(s: State, s': State, inum: nat, pos: nat, piece: seq<nat>, count: nat)
    requires Written(s, s', inum, pos, piece, |piece|) && MappedTo(s, inum, pos) && s'.Mapped(inum, pos / BSIZE)
    requires pos % BSIZE + count <= BSIZE
    ensures MappedTo(s', inum, pos + count)
  {
    hide State.At, State.ByteOf;
    forall bn: nat | bn * BSIZE < pos + count ensures s'.Mapped(inum, bn) {
      if bn * BSIZE < pos {
        assert s.Mapped(inum, bn) && AtSame(s, s', inum, SlotOf(bn));
      } else {
        assert bn == pos / BSIZE;
      }
    }
  }

  /** The size is set after the bytes are written. */
  lemma WrittenResize(s: State, s1: State, inum: nat, off: nat, data: seq<nat>, k: nat, size: nat)
    requires Written(s, s1, inum, off, data, k) && size <= MAXFILE * BSIZE && MappedTo(s1, inum, size)
    ensures Written(s, Resize(s1, inum, size), inum, off, data, k)
  {
    hide State.At, State.ByteOf;
    ResizeInv(s1, inum, size);
    var s2 := Resize(s1, inum, size);
    WrittenResized(s, s1, s2, inum, off, data, k);
  }

  lemma WrittenResized(s: State, s1: State, s2: State, inum: nat, off: nat, data: seq<nat>, k: nat)
    requires Written(s, s1, inum, off, data, k) && s2.Inv() && s2.sb == s.sb && |s2.nodes| == |s.nodes|
    requires forall i: nat | i < |s.nodes| :: s2.nodes[i].(size := s1.nodes[i].size) == s1.nodes[i] && (i != inum ==>
            s2.nodes[i] == s1.nodes[i])
    requires forall i: nat, t: Slot | i < |s.nodes| && t.Ok() :: AtSame(s1, s2, i, t)
    requires s1.Owned() && s2.Owned()
    requires forall i: nat, x: nat | i < |s.nodes| && x < MAXFILE * BSIZE :: ByteSame(s1, s2, i, x)
    ensures Written(s, s2, inum, off, data, k)
  {
    hide State.At, State.ByteOf, State.Inv, State.Owned;
    WrittenOwned(s, s1, inum, off, data, k);
    forall i: nat | i < |s.nodes| ensures HeadKept(s, s2, inum, i) { assert HeadKept(s, s1, inum, i); }
    forall i: nat, t: Slot | i < |s.nodes| && t.Ok() && s.At(i, t) != 0 ensures AtSame(s, s2, i, t) {
      assert AtSame(s, s1, i, t) && AtSame(s1, s2, i, t);
    }
    forall i: nat, x: nat | i < |s.nodes| && x < MAXFILE * BSIZE ensures WrittenAt(s, s2, inum, off, data, k, i, x) {
      assert WrittenAt(s, s1, inum, off, data, k, i, x) && ByteSame(s1, s2, i, x);
    }
  }

  /** The slots of all inodes but `inum` are as they were. */
  ghost predicate OthersAt(s: State, s': State, inum: nat) {
    |s'.nodes| == |s.nodes| && forall i: nat, t: Slot | i < |s.nodes| && i != inum && t.Ok() :: AtSame(s, s', i, t)
  }

  /** Only the slot of block `bn` of `inum`, and its indirect slot, changed. */
  ghost predicate OnlyBlock(s: State, s': State, inum: nat, bn: nat) {
    && OthersAt(s, s', inum) && inum < |s.nodes|
    && forall c: nat | c < MAXFILE && c != bn :: AtSame(s, s', inum, SlotOf(c))
  }

  lemma OnlyRefl(s: State, inum: nat, bn: nat)
    requires inum < |s.nodes|
    ensures OnlyBlock(s, s, inum, bn)
  {
    hide State.At;
    forall i: nat, t: Slot | i < |s.nodes| && t.Ok() ensures AtSame(s, s, i, t) {}
  }

  lemma OnlyTrans(s: State, s1: State, s2: State, inum: nat, bn: nat)
    requires OnlyBlock(s, s1, inum, bn) && OnlyBlock(s1, s2, inum, bn)
    ensures OnlyBlock(s, s2, inum, bn)
  {
    hide State.At;
    forall i: nat, t: Slot | i < |s.nodes| && i != inum && t.Ok() ensures AtSame(s, s2, i, t) {
      assert AtSame(s, s1, i, t) && AtSame(s1, s2, i, t);
    }
    forall c: nat | c < MAXFILE && c != bn ensures AtSame(s, s2, inum, SlotOf(c)) {
      assert AtSame(s, s1, inum, SlotOf(c)) && AtSame(s1, s2, inum, SlotOf(c));
    }
  }

  lemma HangOnly(s: State, inum: nat, slot: Slot, b: nat, bn: nat)
    requires s.MayPlant(inum, slot, b) && bn < MAXFILE && (slot == SlotOf(bn) || slot == Ind)
    ensures OnlyBlock(s, Hang(s, inum, slot, b), inum, bn)
  {
    hide State.At, Hang;
    HangFiles(s, inum, slot, b);
    var s' := Hang(s, inum, slot, b);
    forall i: nat, t: Slot | i < |s.nodes| && i != inum && t.Ok() ensures AtSame(s, s', i, t) {}
    forall c: nat | c < MAXFILE && c != bn ensures AtSame(s, s', inum, SlotOf(c)) {}
  }

  lemma StoreOnly(s: State, b: nat, data: Block, inum: nat, bn: nat)
    requires s.Inv() && b in s.owner && b < |s.disk| && s.owner[b].slot != Ind && inum < |s.nodes|
    ensures OnlyBlock(s, s.Store(b, data), inum, bn)
  {
    StoreInv(s, b, data);
    hide State.At;
    var s' := s.Store(b, data);
    forall i: nat, t: Slot | i < |s.nodes| && i != inum && t.Ok() ensures AtSame(s, s', i, t) {}
    forall c: nat | c < MAXFILE && c != bn ensures AtSame(s, s', inum, SlotOf(c)) {}
  }

  class FileSystem {
    const sb: Super
    var disk: seq<Block>
    var dinodes: seq<Dinode>
    ghost var owner: map<nat, Own>
    ghost var logged: set<nat>

    constructor (sb: Super, disk: seq<Block>, dinodes: seq<Dinode>, ghost owner: map<nat, Own>)
      ensures this.sb == sb && this.disk == disk && this.dinodes == dinodes && this.owner == owner && logged == {}
    {
      this.sb, this.disk, this.dinodes, this.owner, logged := sb, disk, dinodes, owner, {};
    }

    /** What is on disk. */
    ghost function S(): State
      reads this
    {
      State(sb, disk, dinodes, owner)
    }

    /** The same with the in-memory copy of one inode. */
    ghost function V(ip: Inode): State
      reads this, ip
      requires ip.inum < |dinodes|
    {
      State(sb, disk, dinodes[ip.inum := ip.D()], owner)
    }

    /** balloc (kernel/fs.c:64-86): the lowest block with a clear bit is marked and zeroed; it panics
        exactly when there is none. */
    method Balloc() returns (panic: bool, b: nat)
      requires sb.Ok() && |disk| == sb.size
      modifies `disk, `logged
      ensures panic <==> Full(sb, old(disk))
      ensures panic ==> disk == old(disk) && logged == old(logged)
      ensures !panic ==> b < sb.size && !Used(sb, old(disk), b) && (forall c: nat | c < b :: Used(sb, old(disk), c))
      ensures !panic ==> sb.BBlock(b) < |old(disk)| && disk == WithBit(sb, old(disk), b, true)[b := Zeros()]
      ensures !panic ==> logged == old(logged) + {sb.BBlock(b), b}
    {
      hide Used, Super.Ok, BitTo;
      var base := 0;
      while base < sb.size
        invariant base % BPB == 0 && disk == old(disk) && logged == old(logged)
        invariant forall c: nat | c < base && c < sb.size :: Used(sb, disk, c)
      {
        var bi := 0;
        while bi < BPB && base + bi < sb.size
          invariant bi <= BPB && disk == old(disk) && logged == old(logged)
          invariant forall c: nat | c < base + bi && c < sb.size :: Used(sb, disk, c)
        {
          b := base + bi;
          BitMath(base, bi);
          BitIn(sb, disk, base, bi, b);
          BitToMod(disk[sb.BBlock(base)], bi, b);
          if !Bit(disk[sb.BBlock(base)][bi / 8], bi % 8) {
            disk := disk[sb.BBlock(base) := BitTo(disk[sb.BBlock(base)], bi, true)];
            logged := logged + {sb.BBlock(b)};
            disk := disk[b := Zeros()];
            logged := logged + {b};
            return false, b;
          }
          bi := bi + 1;
        }
        base := base + BPB;
      }
      return true, 0;
    }

    /** bfree (kernel/fs.c:89-103). Its panic on a free block is a precondition. */
    method Bfree(b: nat)
      requires sb.Ok() && |disk| == sb.size && b < sb.size && Used(sb, disk, b)
      modifies `disk, `logged
      ensures sb.BBlock(b) < |old(disk)| && disk == WithBit(sb, old(disk), b, false)
      ensures logged == old(logged) + {sb.BBlock(b)}
    {
      assert sb.BBlock(b) < sb.meta;
      disk := disk[sb.BBlock(b) := BitTo(disk[sb.BBlock(b)], b, false)];
      logged := logged + {sb.BBlock(b)};
    }

    /** iupdate (kernel/fs.c:221-237). */
    method Iupdate(ip: Inode)
      requires ip.inum < |dinodes|
      modifies `dinodes, `logged
      ensures |dinodes| == |old(dinodes)| && V(ip) == old(V(ip)) == S() && logged == old(logged) + {sb.IBlock(ip.inum)}
    {
      dinodes := dinodes[ip.inum := Dinode(ip.typ, ip.major, ip.minor, ip.nlink, ip.size, ip.addrs)];
      logged := logged + {sb.IBlock(ip.inum)};
    }
  
    /** balloc for one of the numbers in `ip.addrs` (kernel/fs.c:384-385, 392-393). */
    method Attach(ip: Inode, j: nat, ghost bn: nat) returns (panic: bool, b: nat)
      requires ip.inum < |dinodes| && V(ip).Inv() && ip.typ != 0 && j <= NDIRECT && ip.addrs[j] == 0
      requires bn < MAXFILE && (j == NDIRECT || j == bn)
      modifies `disk, `logged, `owner, ip`addrs
      ensures panic ==> sb.Ok() && |disk| == sb.size && Full(sb, disk)
      ensures !panic ==> V(ip).Inv() && SameFiles(old(V(ip)), V(ip)) && ip.addrs == old(ip.addrs)[j := b] && b != 0
      ensures !panic ==> logged == old(logged) + {sb.BBlock(b), b} && AllLogged(old(disk), disk, logged)
      ensures !panic ==> sb.BBlock(b) < sb.meta && OnlyBlock(old(V(ip)), V(ip), ip.inum, bn)
      ensures !panic && j == NDIRECT ==> AtSame(old(V(ip)), V(ip), ip.inum, SlotOf(bn))
    {
      hide State.NodeOk, State.Owned, SameFiles, Full, Used, OnlyBlock;
      ghost var s := V(ip);
      panic, b := Balloc();
      if panic {
        return;
      }
      FreeBlock(s, b);
      HangInv(s, ip.inum, AddrSlot(j), b);
      HangOnly(s, ip.inum, AddrSlot(j), b, bn);
      HangFiles(s, ip.inum, AddrSlot(j), b);
      ip.addrs := ip.addrs[j := b];
      owner := owner[b := Own(ip.inum, AddrSlot(j))];
      assert V(ip) == Hang(s, ip.inum, AddrSlot(j), b);
    }
  
    /** balloc for an entry of the indirect block (kernel/fs.c:396-399). */
    method AttachEntry(ip: Inode, k: nat) returns (panic: bool, b: nat)
      requires ip.inum < |dinodes| && V(ip).Inv() && ip.typ != 0 && k < NINDIRECT && ip.addrs[NDIRECT] != 0
      requires V(ip).At(ip.inum, Entry(k)) == 0
      modifies `disk, `logged, `owner
      ensures panic ==> sb.Ok() && |disk| == sb.size && Full(sb, disk)
      ensures !panic ==> V(ip).Inv() && SameFiles(old(V(ip)), V(ip)) && b == V(ip).At(ip.inum, Entry(k)) != 0
      ensures !panic ==> logged == old(logged) + {sb.BBlock(b), b, ip.addrs[NDIRECT]}
      ensures !panic ==> AllLogged(old(disk), disk, logged)
      ensures !panic ==> sb.BBlock(b) < sb.meta && OnlyBlock(old(V(ip)), V(ip), ip.inum, NDIRECT + k)
    {
      hide State.NodeOk, State.Owned, SameFiles, Full, Used, Word, SetWord, OnlyBlock;
      ghost var s := V(ip);
      HeldAt(s, ip.inum, Ind);
      var ind := ip.addrs[NDIRECT];
      panic, b := Balloc();
      if panic {
        return;
      }
      FreeBlock(s, b);
      HangInv(s, ip.inum, Entry(k), b);
      HangOnly(s, ip.inum, Entry(k), b, NDIRECT + k);
      disk := disk[ind := SetWord(disk[ind], k, b)];
      logged := logged + {ind};
      owner := owner[b := Own(ip.inum, Entry(k))];
      assert V(ip) == Hang(s, ip.inum, Entry(k), b);
    }

    /** The second half of bmap (kernel/fs.c:394-401), where the indirect block is there. */
    method BmapEntry(ip: Inode, k: nat) returns (panic: bool, addr: nat, ghost maps: set<nat>)
      requires ip.inum < |dinodes| && V(ip).Inv() && ip.typ != 0 && k < NINDIRECT && ip.addrs[NDIRECT] != 0
      modifies `disk, `logged, `owner
      ensures panic ==> sb.Ok() && |disk| == sb.size && Full(sb, disk)
      ensures !panic ==> V(ip).Inv() && SameFiles(old(V(ip)), V(ip)) && addr == V(ip).At(ip.inum, Entry(k)) != 0
      ensures old(V(ip).At(ip.inum, Entry(k))) != 0 ==> !panic && V(ip) == old(V(ip)) && logged == old(logged)
      ensures old(V(ip).At(ip.inum, Entry(k))) != 0 ==> maps == {}
      ensures !panic ==> old(logged) <= logged
      ensures !panic ==> Turn(old(logged), logged, maps, addr, ip.addrs[NDIRECT], ip.addrs[NDIRECT])
      ensures !panic ==> AllLogged(old(disk), disk, logged) && |maps| <= 1 && Low(maps, sb)
      ensures !panic && old(V(ip).At(ip.inum, Entry(k))) == 0 ==> addr in logged
      ensures !panic ==> OnlyBlock(old(V(ip)), V(ip), ip.inum, NDIRECT + k)
    {
      hide State.NodeOk, State.Owned, SameFiles, Full, Used, Word, SetWord, AllLogged, Turn, OnlyBlock;
      ghost var s, logged0, ind := V(ip), logged, ip.addrs[NDIRECT];
      HeldAt(s, ip.inum, Ind);
      addr := Word(disk[ip.addrs[NDIRECT]], k);
      if addr == 0 {
        panic, addr := AttachEntry(ip, k);
        TurnEntry(logged0, logged, sb.BBlock(addr), addr, ind);
        maps := {sb.BBlock(addr)};
        return;
      }
      SameFilesRefl(s);
      OnlyRefl(s, ip.inum, NDIRECT + k);
      AllLoggedRefl(disk, logged);
      TurnNone(logged, addr, ind);
      return false, addr, {};
    }

    /** bmap (kernel/fs.c:377-405), for a block number in range: the block in the slot, allocated if
        there was none. No byte of any file changes. It can only panic on a full disk. */
    method Bmap(ip: Inode, bn: nat) returns (panic: bool, addr: nat, ghost maps: set<nat>)
      requires ip.inum < |dinodes| && V(ip).Inv() && ip.typ != 0 && bn < MAXFILE
      modifies `disk, `logged, `owner, ip`addrs
      ensures panic ==> sb.Ok() && |disk| == sb.size && Full(sb, disk)
      ensures !panic ==> V(ip).Inv() && SameFiles(old(V(ip)), V(ip)) && addr == V(ip).At(ip.inum, SlotOf(bn)) != 0
      ensures old(V(ip).At(ip.inum, SlotOf(bn))) != 0 ==> !panic && V(ip) == old(V(ip)) && logged == old(logged)
      ensures old(V(ip).At(ip.inum, SlotOf(bn))) != 0 ==> maps == {}
      ensures !panic ==> Turn(old(logged), logged, maps, addr, old(ip.addrs[NDIRECT]), ip.addrs[NDIRECT])
      ensures !panic ==> AllLogged(old(disk), disk, logged) && Low(maps, sb)
      ensures !panic ==> OnlyBlock(old(V(ip)), V(ip), ip.inum, bn)
      ensures !panic && old(V(ip).At(ip.inum, SlotOf(bn))) == 0 ==> addr in logged
    {
      hide State.Inv, State.At, SameFiles, Full, AllLogged, Turn, OnlyBlock;
      ghost var s0, logged0, ind0 := V(ip), logged, ip.addrs[NDIRECT];
      SlotAddr(s0, ip.inum, bn);
      InvOwned(s0);
      if bn < NDIRECT {
        addr, maps, panic := ip.addrs[bn], {}, false;
        if addr == 0 {
          panic, addr := Attach(ip, bn, bn);
          SlotAddr(V(ip), ip.inum, bn);
          TurnOne(logged0, logged, sb.BBlock(addr), addr, ind0);
          maps := {sb.BBlock(addr)};
          return;
        }
        TurnNone(logged, addr, ind0);
        SameFilesRefl(s0);
        OnlyRefl(s0, ip.inum, bn);
        AllLoggedRefl(disk, logged);
        return;
      }
      panic, addr, maps := BmapIndirect(ip, bn);
    }

    /** The part of bmap for the blocks from NDIRECT on (kernel/fs.c:389-402). */
    method BmapIndirect(ip: Inode, bn: nat) returns (panic: bool, addr: nat, ghost maps: set<nat>)
      requires ip.inum < |dinodes| && V(ip).Inv() && ip.typ != 0 && NDIRECT <= bn < MAXFILE
      modifies `disk, `logged, `owner, ip`addrs
      ensures panic ==> sb.Ok() && |disk| == sb.size && Full(sb, disk)
      ensures !panic ==> V(ip).Inv() && SameFiles(old(V(ip)), V(ip)) && addr == V(ip).At(ip.inum, SlotOf(bn)) != 0
      ensures old(V(ip).At(ip.inum, SlotOf(bn))) != 0 ==> !panic && V(ip) == old(V(ip)) && logged == old(logged)
      ensures old(V(ip).At(ip.inum, SlotOf(bn))) != 0 ==> maps == {}
      ensures !panic ==> Turn(old(logged), logged, maps, addr, old(ip.addrs[NDIRECT]), ip.addrs[NDIRECT])
      ensures !panic ==> AllLogged(old(disk), disk, logged) && Low(maps, sb)
      ensures !panic ==> OnlyBlock(old(V(ip)), V(ip), ip.inum, bn)
      ensures !panic && old(V(ip).At(ip.inum, SlotOf(bn))) == 0 ==> addr in logged
    {
      hide State.Inv, State.At, SameFiles, Full, AllLogged, Turn, OnlyBlock;
      ghost var s0, logged0, ind0 := V(ip), logged, ip.addrs[NDIRECT];
      SlotAddr(s0, ip.inum, bn);
      InvOwned(s0);
      SameFilesRefl(s0);
      OnlyRefl(s0, ip.inum, bn);
      AllLoggedRefl(disk, logged);
      maps := {};
      addr := ip.addrs[NDIRECT];
      if addr == 0 {
        panic, addr := Attach(ip, NDIRECT, bn);
        if panic {
          return;
        }
        maps := {sb.BBlock(addr)};
      }
      ghost var s1, logged1, ind := V(ip), logged, addr;
      ghost var maps1;
      panic, addr, maps1 := BmapEntry(ip, bn - NDIRECT);
      if panic {
        return;
      }
      SameFilesTrans(s0, s1, V(ip));
      OnlyTrans(s0, s1, V(ip), ip.inum, bn);
      AllLoggedTrans(s0.disk, s1.disk, disk, logged1, logged);
      TurnBoth(logged0, logged1, logged, maps, maps1, addr, ind0, ind);
      maps := maps + maps1;
    }

    /** readi (kernel/fs.c:455-477): the bytes of the file from `off` on, at most `n` and at most to its
        end; -1 when the destination takes fewer than that (`room`). It never allocates. */
    method Readi(ip: Inode, off: nat, n: nat, room: nat) returns (ret: int, out: seq<nat>)
      requires ip.inum < |dinodes| && V(ip).Inv() && ip.typ != 0 && off < WRAP && n < WRAP
      modifies `disk, `logged, `owner, ip`addrs
      ensures V(ip) == old(V(ip)) && logged == old(logged)
      ensures off > ip.size || off + n >= WRAP ==> ret == 0 && out == []
      ensures off <= ip.size && off + n < WRAP ==>
                var m := if off + n > ip.size then ip.size - off else n;
                if m <= room then ret == m && out == Contents(V(ip), ip.inum)[off..off + m] else ret == -1
    {
      hide State.Inv, State.At, State.ByteOf, SameFiles, Full, AllLogged, Turn, ReadFrom, Contents;
      ghost var s := V(ip);
      out := [];
      WrapsIff(off, n);
      if off > ip.size || (off + n) % WRAP < off {
        return 0, [];
      }
      ReadNone(s, ip.inum, off);
      var m := if off + n > ip.size then ip.size - off else n;
      ContentsSize(s, ip.inum);
      var tot, pos := 0, off;
      while tot < m
        invariant 0 <= tot <= m && tot <= room && pos == off + tot && |out| == tot
        invariant V(ip) == s && logged == old(logged) && ip.size == old(ip.size) && ReadFrom(s, ip.inum, off, out)
      {
        var count := if m - tot < BSIZE - pos % BSIZE then m - tot else BSIZE - pos % BSIZE;
        ReadStep(s, ip.inum, off, out, count);
        var panic, addr, maps := Bmap(ip, pos / BSIZE);
        if tot + count > room {
          return -1, out;
        }
        out := out + disk[addr][pos % BSIZE..pos % BSIZE + count];
        tot := tot + count;
        pos := pos + count;
      }
      ReadAll(s, ip.inum, off, out);
      ret := tot;
    }

    /** One turn of writei's loop (kernel/fs.c:498-505): the block of `pos` gets the bytes `piece`; after
        a failed copy it is released without log_write. */
    method WriteOne(ip: Inode, pos: nat, piece: seq<nat>, ok: bool) returns (panic: bool, ghost addr: nat,
                    ghost maps: set<nat>)
      requires ip.inum < |dinodes| && V(ip).Inv() && ip.typ != 0 && pos / BSIZE < MAXFILE
      requires pos % BSIZE + |piece| <= BSIZE
      modifies `disk, `logged, `owner, ip`addrs
      ensures panic ==> sb.Ok() && |disk| == sb.size && Full(sb, disk)
      ensures !panic ==> V(ip).Inv() && Written(old(V(ip)), V(ip), ip.inum, pos, piece, |piece|)
      ensures !panic ==> V(ip).Mapped(ip.inum, pos / BSIZE)
      ensures !panic ==> Turn(old(logged), logged, maps, addr, old(ip.addrs[NDIRECT]), ip.addrs[NDIRECT])
      ensures !panic ==> AllLogged(old(disk), disk, if ok then logged else logged + {addr})
      ensures old(V(ip).At(ip.inum, SlotOf(pos / BSIZE))) != 0 ==> !panic && maps == {}
      ensures !panic ==> Low(maps, sb) && addr == V(ip).At(ip.inum, SlotOf(pos / BSIZE))
      ensures !panic ==> OnlyBlock(old(V(ip)), V(ip), ip.inum, pos / BSIZE)
      ensures !panic ==> Placed(sb, ip.inum, old(logged), logged)
      ensures !panic && !ok ==> if old(V(ip).At(ip.inum, SlotOf(pos / BSIZE))) == 0 then addr in logged else
                logged == old(logged) && addr == old(V(ip).At(ip.inum, SlotOf(pos / BSIZE)))
    {
      hide State.Inv, State.At, State.ByteOf, SameFiles, Full, AllLogged, Written, Splice, OnlyBlock;
      ghost var s := V(ip);
      var b;
      panic, b, maps := Bmap(ip, pos / BSIZE);
      addr := b;
      if panic {
        return;
      }
      ghost var s1, logged1 := V(ip), logged;
      PieceWritten(s, s1, ip.inum, pos, piece);
      PieceOnly(s, s1, ip.inum, pos, piece);
      var block: Block := Splice(disk[b], pos % BSIZE, piece);
      AllLoggedOne(disk, b, block, logged + {b});
      disk := disk[b := block];
      AllLoggedTrans(s.disk, s1.disk, disk, logged1, logged1 + {b});
      if ok {
        logged := logged + {b};
      }
      TurnPlaced(V(ip), ip.inum, pos / BSIZE, old(logged), logged, maps, addr, old(ip.addrs[NDIRECT]));
    }

    /** writei's loop (kernel/fs.c:497-506). */
    method WriteBlocks(ip: Inode, off: nat, data: seq<nat>, avail: nat) returns (panic: bool, tot: nat, ghost t: Tally)
      requires ip.inum < |dinodes| && V(ip).Inv() && ip.typ != 0 && off <= ip.size && off + |data| <= MAXFILE * BSIZE
      requires avail <= |data|
      modifies `disk, `logged, `owner, ip`addrs
      ensures panic ==> sb.Ok() && |disk| == sb.size && Full(sb, disk)
      ensures panic ==> off + |data| > old(ip.size)
      ensures !panic ==> tot <= avail && (tot == |data| <==> avail == |data|) && (t.lost == {} <==> avail == |data|)
      ensures !panic ==> Progress(old(V(ip)), old(logged), V(ip), logged, t, ip.inum, off, data, tot, avail)
      ensures !panic && avail < |data| ==>
                Lost(old(V(ip)), V(ip), old(logged), logged, t.lost, ip.inum, (off + avail) / BSIZE)
      ensures !panic ==> Placed(sb, ip.inum, old(logged), logged)
    {
      hide State.Inv, Full, Progress, Written, AllLogged, Turn, State.Mapped, State.At, Spared, Lost,
           OnlyBlock, Low, Placed;
      ghost var s0, logged0 := V(ip), logged;
      PlacedNone(sb, ip.inum, logged0);
      var n := |data|;
      ghost var last := (off + avail) / BSIZE;
      ProgressNone(s0, logged0, ip.inum, off, data);
      if avail < n { SparedStart(s0, logged0, ip.inum, last); }
      t := Tally({}, {}, {}, 0);
      var pos := off;
      tot, panic := 0, false;
      while tot < n
        invariant tot <= n && tot <= avail && pos == off + tot && !panic && t.lost == {}
        invariant (tot == 0 || tot == n || pos % BSIZE == 0)
        invariant ip.inum < |V(ip).nodes| && ip.typ == old(ip.typ)
        invariant Progress(s0, logged0, V(ip), logged, t, ip.inum, off, data, tot, tot)
        invariant avail < n ==> Spared(s0, V(ip), logged0, logged, ip.inum, last)
        invariant Placed(sb, ip.inum, logged0, logged)
      {
        ghost var s1, logged1 := V(ip), logged;
        ProgressInv(s0, logged0, s1, logged1, t, ip.inum, off, data, tot, tot);
        var count := if n - tot < BSIZE - pos % BSIZE then n - tot else BSIZE - pos % BSIZE;
        var ok := tot + count <= avail;
        var part := if ok then count else avail - tot;
        ghost var addr, maps;
        panic, addr, maps := WriteOne(ip, pos, data[tot..tot + part], ok);
        if panic {
          PastEnd(s0, logged0, s1, logged1, t, ip.inum, off, data, tot, pos);
          return;
        }
        ProgressStep(s0, logged0, s1, logged1, t, ip.inum, off, data, tot, V(ip), logged, addr, maps, count, part);
        PlacedTrans(sb, ip.inum, logged0, logged1, logged);
        if avail < n {
          LastTurn(off, tot, count, avail, n);
          if ok {
            SparedStep(s0, s1, V(ip), logged0, logged1, logged, ip.inum, pos / BSIZE, last, maps, addr);
          } else {
            LostIs(s0, s1, V(ip), logged0, logged1, logged, ip.inum, last, addr);
          }
        }
        t := Tally(if ok then {} else {addr}, t.maps + maps, t.datas + {addr}, t.c + 1);
        if !ok {
          return;
        }
        tot := tot + count;
        pos := pos + count;
      }
    }

    /** writei (kernel/fs.c:486-517) of `data`, of which the first `avail` bytes can be read.

        It writes the blocks one by one up to the one where copying fails, and of that one the part
        before the failure; `ret` counts only whole turns. The inode is written back, every changed
        block but that last one is logged, and the blocks logged are few. */
    method Writei(ip: Inode, off: nat, data: seq<nat>, avail: nat) returns (panic: bool, ret: int, ghost lost: set<nat>)
      requires ip.inum < |dinodes| && V(ip).Inv() && V(ip) == S() && ip.typ != 0
      requires off < WRAP && |data| < WRAP && avail <= |data|
      modifies `disk, `logged, `owner, `dinodes, ip`addrs, ip`size
      ensures panic ==> sb.Ok() && |disk| == sb.size && Full(sb, disk) && off + |data| > old(ip.size)
      ensures |dinodes| == old(|dinodes|) && (!panic ==> V(ip) == S() && V(ip).Inv())
      ensures Refused(old(ip.size), off, |data|) ==> !panic && ret == -1 && S() == old(S()) && logged == old(logged)
      ensures !panic && !Refused(old(ip.size), off, |data|) ==>
                && 0 <= ret <= avail && (ret == |data| <==> avail == |data|)
                && Written(old(S()), S(), ip.inum, off, data, avail)
                && ip.size == (if off + ret > old(ip.size) then off + ret else old(ip.size))
                && old(S()).Owned()
                && (AllLogged(old(disk), disk, logged) <==> !Torn(old(S()), old(logged), ip.inum, off, data, avail))
                && NodesLogged(old(S()), S(), ip.inum, logged)
      ensures !panic ==> |lost| <= (if avail < |data| then 1 else 0) && AllLogged(old(disk), disk, logged + lost)
      ensures !panic ==> |logged - old(logged)| <= WriteBound(off, |data|) && Placed(sb, ip.inum, old(logged), logged)
    {
      hide State.Inv, Full, AllLogged, Written, WriteBound, Torn, Placed;
      lost := {};
      PlacedNone(sb, ip.inum, logged);
      AllLoggedRefl(disk, logged + {});
      assert logged - logged == {};
      if off > ip.size || (off + |data|) % WRAP < off {
        return false, -1, {};
      }
      if off + |data| > MAXFILE * BSIZE {
        return false, -1, {};
      }
      panic, ret, lost := WriteRange(ip, off, data, avail);
    }

    /** writei past its tests (kernel/fs.c:497-516). */
    method WriteRange(ip: Inode, off: nat, data: seq<nat>, avail: nat) returns (panic: bool, ret: int,
                      ghost lost: set<nat>)
      requires ip.inum < |dinodes| && V(ip).Inv() && V(ip) == S() && ip.typ != 0
      requires off <= ip.size && off + |data| <= MAXFILE * BSIZE && avail <= |data|
      modifies `disk, `logged, `owner, `dinodes, ip`addrs, ip`size
      ensures panic ==> sb.Ok() && |disk| == sb.size && Full(sb, disk) && off + |data| > old(ip.size)
      ensures |dinodes| == old(|dinodes|) && (!panic ==> V(ip) == S() && V(ip).Inv())
      ensures !panic ==>
                && 0 <= ret <= avail && (ret == |data| <==> avail == |data|)
                && Written(old(S()), S(), ip.inum, off, data, avail)
                && ip.size == (if off + ret > old(ip.size) then off + ret else old(ip.size))
                && old(S()).Owned()
                && (AllLogged(old(disk), disk, logged) <==> !Torn(old(S()), old(logged), ip.inum, off, data, avail))
                && NodesLogged(old(S()), S(), ip.inum, logged)
      ensures !panic ==> |lost| <= (if avail < |data| then 1 else 0) && AllLogged(old(disk), disk, logged + lost)
      ensures !panic ==> |logged - old(logged)| <= WriteBound(off, |data|) && Placed(sb, ip.inum, old(logged), logged)
    {
      hide State.Inv, Full, AllLogged, Written, Progress, WriteBound, Torn, Lost, State.At, Placed;
      ghost var s0, logged0 := S(), logged;
      var tot;
      ghost var t;
      panic, tot, t := WriteBlocks(ip, off, data, avail);
      lost, ret := {}, 0;
      if panic {
        return;
      }
      ghost var s1 := V(ip);
      RangeDone(s0, logged0, s1, logged, t, ip.inum, off, data, tot, avail);
      if off + tot > ip.size {
        WrittenResize(s0, s1, ip.inum, off, data, avail, off + tot);
        ip.size := off + tot;
        assert V(ip) == Resize(s1, ip.inum, off + tot);
      }
      WrittenOwned(s0, V(ip), ip.inum, off, data, avail);
      PlacedNone(sb, ip.inum, logged0);
      PlacedTrans(sb, ip.inum, logged0, logged0, logged);
      Iupdate(ip);
      lost := t.lost;
      ret := tot;
    }
  }

  /** A block that is missing lies past the end of the file. */
  lemma PastEnd(s0: State, logged0: set<nat>, s1: State, logged1: set<nat>, t: Tally, inum: nat, off: nat,
                data: seq<nat>, tot: nat, pos: nat)
    requires Progress(s0, logged0, s1, logged1, t, inum, off, data, tot, tot) && inum < |s0.nodes| && inum < |s1.nodes|
    requires pos / BSIZE < MAXFILE && s1.At(inum, SlotOf(pos / BSIZE)) == 0
    ensures pos >= s0.nodes[inum].size
  {
    hide State.At, State.ByteOf, AllLogged, MappedTo, Budget;
    assert s0.At(inum, SlotOf(pos / BSIZE)) != 0 ==> AtSame(s0, s1, inum, SlotOf(pos / BSIZE));
    if pos < s0.nodes[inum].size { NoHole(s0, inum, pos); }
  }

  /** Only inode `inum` changed, and its block is logged. */
  ghost predicate NodesLogged(s: State, s': State, inum: nat, logged: set<nat>) {
    s.sb.IBlock(inum) in logged && |s'.nodes| == |s.nodes| && forall i: nat | i < |s.nodes| && i != inum ::
        s'.nodes[i] == s.nodes[i]
  }

  /** What the loop and the inode's write back come to. */
  lemma RangeDone(s0: State, logged0: set<nat>, s1: State, logged: set<nat>, t: Tally, inum: nat, off: nat,
                  data: seq<nat>, tot: nat, avail: nat)
    requires Progress(s0, logged0, s1, logged, t, inum, off, data, tot, avail) && inum < |s0.nodes|
    requires off + |data| <= MAXFILE * BSIZE
    requires avail <= |data| && (t.lost == {} <==> avail == |data|) && (tot == |data| <==> avail == |data|)
    requires avail < |data| ==> Lost(s0, s1, logged0, logged, t.lost, inum, (off + avail) / BSIZE)
    ensures Written(s0, s1, inum, off, data, avail) && s1.Shape() && inum < |s1.nodes| && MappedTo(s1, inum, off + tot)
    ensures |t.lost| <= 1 && s0.Owned()
    ensures var logged' := logged + {s0.sb.IBlock(inum)};
            && |logged' - logged0| <= WriteBound(off, |data|) && AllLogged(s0.disk, s1.disk, logged' + t.lost)
            && (AllLogged(s0.disk, s1.disk, logged') <==> !Torn(s0, logged0, inum, off, data, avail))
  {
    hide State.Inv, Full, AllLogged, Written, Progress, WriteBound, Torn, Lost, State.At;
    ProgressDone(s0, logged0, s1, logged, t, inum, off, data, tot, avail, s0.sb.IBlock(inum));
    WrittenOwned(s0, s1, inum, off, data, avail);
    if avail < |data| { LostMore(s0, s1, logged0, logged, t.lost, inum, (off + avail) / BSIZE); }
    TornExact(s0, s1, logged0, logged + {s0.sb.IBlock(inum)}, t.lost, inum, off, data, avail);
  }

  lemma PieceOnly(s: State, s1: State, inum: nat, pos: nat, piece: seq<nat>)
    requires s1.Inv() && OnlyBlock(s, s1, inum, pos / BSIZE) && inum < |s1.nodes| && pos / BSIZE < MAXFILE
    requires pos % BSIZE + |piece| <= BSIZE
    requires s1.At(inum, SlotOf(pos / BSIZE)) != 0
    ensures var b := s1.At(inum, SlotOf(pos / BSIZE));
            b < |s1.disk| && OnlyBlock(s, s1.Store(b, Splice(s1.disk[b], pos % BSIZE, piece)), inum, pos / BSIZE)
  {
    hide State.At, OnlyBlock, Splice;
    var b := s1.At(inum, SlotOf(pos / BSIZE));
    HeldAt(s1, inum, SlotOf(pos / BSIZE));
    var block: Block := Splice(s1.disk[b], pos % BSIZE, piece);
    StoreOnly(s1, b, block, inum, pos / BSIZE);
    OnlyTrans(s, s1, s1.Store(b, block), inum, pos / BSIZE);
  }

  /** Which number bmap goes by: one of the inode's own, or one in its indirect block (kernel/fs.c:383-402). */
  lemma BlockPlace(s: State, inum: nat, bn: nat)
    requires inum < |s.nodes| && bn < MAXFILE
    ensures var addrs := s.nodes[inum].addrs;
            s.At(inum, SlotOf(bn)) ==
              if bn < NDIRECT then addrs[bn]
              else if 0 < addrs[NDIRECT] < |s.disk| then Word(s.disk[addrs[NDIRECT]], bn - NDIRECT) else 0
  {
  }

  /** Where the number of the `bn`-th block is kept. */
  lemma SlotAddr(s: State, inum: nat, bn: nat)
    requires inum < |s.nodes| && bn < MAXFILE
    ensures bn < NDIRECT ==> s.At(inum, SlotOf(bn)) == s.nodes[inum].addrs[bn]
    ensures bn >= NDIRECT && s.nodes[inum].addrs[NDIRECT] == 0 ==> s.At(inum, SlotOf(bn)) == 0
  {
  }

  /** The block of the file that holds the first byte which cannot be read is as it was; if it was not yet
      logged, it is not logged now. */
  ghost predicate Spared(s0: State, s: State, logged0: set<nat>, logged: set<nat>, inum: nat, last: nat) {
    && inum < |s0.nodes| && inum < |s.nodes| && last < MAXFILE
    && var a := s0.At(inum, SlotOf(last)); s.At(inum, SlotOf(last)) == a && (a != 0 && a !in logged0 ==> a !in logged)
  }

  /** It is the one block that may be changed without being logged. */
  ghost predicate Lost(s0: State, s: State, logged0: set<nat>, logged: set<nat>, lost: set<nat>, inum: nat, last: nat) {
    && inum < |s0.nodes| && inum < |s.nodes| && last < MAXFILE && lost == {s.At(inum, SlotOf(last))}
    && var a := s0.At(inum, SlotOf(last));
       if a == 0 then lost <= logged else s.At(inum, SlotOf(last)) == a && (a !in logged0 ==> a !in logged)
  }

  lemma SparedStep(s0: State, s1: State, s2: State, logged0: set<nat>, logged1: set<nat>, logged2: set<nat>, inum: nat,
                   bn: nat,
                   last: nat, maps: set<nat>, addr: nat)
    requires s2.Inv() && Spared(s0, s1, logged0, logged1, inum, last) && bn < MAXFILE && bn != last && inum < |s2.nodes|
    requires addr == s2.At(inum, SlotOf(bn)) && Low(maps, s2.sb) && OnlyBlock(s1, s2, inum, bn)
    requires Turn(logged1, logged2, maps, addr, s1.nodes[inum].addrs[NDIRECT], s2.nodes[inum].addrs[NDIRECT])
    ensures Spared(s0, s2, logged0, logged2, inum, last)
  {
    hide State.NodeOk, State.BitOk;
    var a := s0.At(inum, SlotOf(last));
    assert AtSame(s1, s2, inum, SlotOf(last));
    if a != 0 {
      HeldAt(s2, inum, SlotOf(last));
      assert s2.SlotOk(inum, SlotOf(bn)) && s2.SlotOk(inum, Ind) && s2.At(inum, Ind) == s2.nodes[inum].addrs[NDIRECT];
    }
  }

  /** A write of which only `avail` bytes can be read changes a block without logging it: the block of the first
      byte that cannot be read was there, was not logged before, and some byte copied into it differs from
      what was there. All this can be seen before the call. */
  ghost predicate Torn(s: State, logged: set<nat>, inum: nat, off: nat, data: seq<nat>, avail: nat)
    requires s.Owned() && inum < |s.nodes| && off + |data| <= MAXFILE * BSIZE
  {
    && avail < |data|
    && var a := s.At(inum, SlotOf((off + avail) / BSIZE));
       a != 0 && a !in logged
       && exists x: nat :: x < avail && (off + x) / BSIZE == (off + avail) / BSIZE && data[x] != s.ByteOf(inum, off + x)
  }

  /** It is exactly then that not every changed block is logged. */
  lemma TornExact(s0: State, s: State, logged0: set<nat>, logged: set<nat>, lost: set<nat>, inum: nat, off: nat,
                  data: seq<nat>, avail: nat)
    requires Written(s0, s, inum, off, data, avail) && off + |data| <= MAXFILE * BSIZE && logged0 <= logged
    requires AllLogged(s0.disk, s.disk, logged + lost) && avail <= |data| && (avail == |data| ==> lost == {})
    requires avail < |data| ==> Lost(s0, s, logged0, logged, lost, inum, (off + avail) / BSIZE)
    ensures s0.Owned() && (AllLogged(s0.disk, s.disk, logged) <==> !Torn(s0, logged0, inum, off, data, avail))
  {
    hide State.Inv, State.At, State.ByteOf, Written;
    WrittenOwned(s0, s, inum, off, data, avail);
    if avail == |data| {
      assert logged + lost == logged;
    } else {
      var last := (off + avail) / BSIZE;
      var a := s0.At(inum, SlotOf(last));
      if a == 0 || a in logged0 {
        assert logged + lost == logged;
      } else {
        HeldAt(s0, inum, SlotOf(last));
        LoggedBut(s0.disk, s.disk, logged, a);
        TornBlock(s0, s, inum, off, data, avail, last, a);
      }
    }
  }

  lemma LoggedBut(d: seq<Block>, d': seq<Block>, logged: set<nat>, a: nat)
    requires a < |d| && a !in logged && AllLogged(d, d', logged + {a})
    ensures AllLogged(d, d', logged) <==> d'[a] == d[a]
  {
    assert LoggedAt(d, d', logged + {a}, a);
    if d'[a] == d[a] {
      forall b: nat | b < |d| ensures LoggedAt(d, d', logged, b) { assert LoggedAt(d, d', logged + {a}, b); }
    } else {
      assert !LoggedAt(d, d', logged, a);
    }
  }

  lemma TornBlock(s0: State, s: State, inum: nat, off: nat, data: seq<nat>, avail: nat, last: nat, a: nat)
    requires Written(s0, s, inum, off, data, avail) && avail < |data| && off + |data| <= MAXFILE * BSIZE
    requires last == (off + avail) / BSIZE
    requires s0.Owned() && s.Owned() && inum < |s0.nodes| && inum < |s.nodes| && a < |s0.disk| && a < |s.disk|
    requires a == s0.At(inum, SlotOf(last)) == s.At(inum, SlotOf(last)) != 0
    ensures s.disk[a] != s0.disk[a] <==>
            exists x: nat :: x < avail && (off + x) / BSIZE == last && data[x] != s0.ByteOf(inum, off + x)
  {
    hide State.Inv, State.At, Written;
    if exists x: nat :: x < avail && (off + x) / BSIZE == last && data[x] != s0.ByteOf(inum, off + x) {
      var x: nat :| x < avail && (off + x) / BSIZE == last && data[x] != s0.ByteOf(inum, off + x);
      WrittenByte(s0, s, inum, off, data, avail, off + x);
    } else {
      forall y: nat | y < BSIZE ensures s.disk[a][y] == s0.disk[a][y] {
        var x := last * BSIZE + y;
        assert x / BSIZE == last && x % BSIZE == y;
        WrittenByte(s0, s, inum, off, data, avail, x);
        assert off <= x < off + avail ==> data[x - off] == s0.ByteOf(inum, off + (x - off));
      }
    }
  }

  lemma WrittenByte(s0: State, s: State, inum: nat, off: nat, data: seq<nat>, k: nat, x: nat)
    requires Written(s0, s, inum, off, data, k) && x < MAXFILE * BSIZE
    ensures s0.Owned() && s.Owned() && WrittenAt(s0, s, inum, off, data, k, inum, x)
  {
  }

  /** The inode's own block is not among the data blocks. */
  lemma LostMore(s0: State, s: State, logged0: set<nat>, logged: set<nat>, lost: set<nat>, inum: nat, last: nat)
    requires s.Inv() && Lost(s0, s, logged0, logged, lost, inum, last)
    ensures Lost(s0, s, logged0, logged + {s.sb.IBlock(inum)}, lost, inum, last)
  {
    hide State.At, State.NodeOk, State.BitOk;
    if s.At(inum, SlotOf(last)) != 0 { HeldAt(s, inum, SlotOf(last)); }
  }

  lemma SparedStart(s0: State, logged0: set<nat>, inum: nat, last: nat)
    requires inum < |s0.nodes| && last < MAXFILE
    ensures Spared(s0, s0, logged0, logged0, inum, last)
  {
  }

  lemma LostIs(s0: State, s1: State, s2: State, logged0: set<nat>, logged1: set<nat>, logged2: set<nat>, inum: nat,
               last: nat, addr: nat)
    requires Spared(s0, s1, logged0, logged1, inum, last) && inum < |s2.nodes| && addr == s2.At(inum, SlotOf(last))
    requires if s1.At(inum, SlotOf(last)) == 0 then addr in logged2
             else logged2 == logged1 && addr == s1.At(inum, SlotOf(last))
    ensures Lost(s0, s2, logged0, logged2, {addr}, inum, last)
  {
  }

  lemma LastTurn(off: nat, tot: nat, count: nat, avail: nat, n: nat)
    requires tot <= avail < n
    requires count == if n - tot < BSIZE - (off + tot) % BSIZE then n - tot else BSIZE - (off + tot) % BSIZE
    ensures tot + count <= avail <==> (off + tot) / BSIZE != (off + avail) / BSIZE
  {
  }

  /** Ghost bookkeeping of writei's loop: data blocks changed and not logged, bitmap blocks and data
      blocks logged, turns made. */
  datatype Tally = Tally(lost: set<nat>, maps: set<nat>, datas: set<nat>, c: nat)

  /** The state of writei's loop: `tot` bytes in whole turns, `k` bytes in all. */
  ghost predicate Progress(s0: State, logged0: set<nat>, s: State, logged: set<nat>, t: Tally,
                           inum: nat, off: nat, data: seq<nat>, tot: nat, k: nat) {
    && tot <= |data| && Written(s0, s, inum, off, data, k) && s.Shape() && MappedTo(s, inum, off + tot)
    && (t.c == 0 ==> s == s0 && logged == logged0) && |t.lost| <= 1 && AllLogged(s0.disk, s.disk, logged + t.lost)
    && (if t.lost == {} then k == tot && t.c == BlocksIn(off, tot) else t.c <= BlocksIn(off, |data|))
    && var ind0, ind := s0.nodes[inum].addrs[NDIRECT], s.nodes[inum].addrs[NDIRECT];
       Budget(logged0, logged, t.maps, t.datas, ind0, ind, t.c, First(off, t.c))
  }

  lemma ProgressNone(s: State, logged: set<nat>, inum: nat, off: nat, data: seq<nat>)
    requires s.Inv() && inum < |s.nodes| && off <= s.nodes[inum].size
    ensures Progress(s, logged, s, logged, Tally({}, {}, {}, 0), inum, off, data, 0, 0)
  {
    hide State.Inv, State.At, State.ByteOf, AllLogged, Written, MappedTo, Budget;
    MappedStart(s, inum, off);
    WrittenNone(s, inum, off, data);
    WrittenOwned(s, s, inum, off, data, 0);
    BudgetNone(logged, s.nodes[inum].addrs[NDIRECT]);
    AllLoggedRefl(s.disk, logged + {});
  }

  lemma ProgressInv(s0: State, logged0: set<nat>, s: State, logged: set<nat>, t: Tally,
                    inum: nat, off: nat, data: seq<nat>, tot: nat, k: nat)
    requires Progress(s0, logged0, s, logged, t, inum, off, data, tot, k)
    ensures s.Inv() && inum < |s.nodes| && s.sb.Ok()
  {
    hide AllLogged, MappedTo, Budget;
  }

  /** One more turn. */
  lemma ProgressStep(s0: State, logged0: set<nat>, s1: State, logged1: set<nat>, t: Tally, inum: nat, off: nat,
                     data: seq<nat>, tot: nat,
                     s2: State, logged2: set<nat>, addr: nat, maps: set<nat>, count: nat, part: nat)
    requires Progress(s0, logged0, s1, logged1, t, inum, off, data, tot, tot) && t.lost == {}
    requires inum < |s0.nodes| && inum < |s1.nodes| && inum < |s2.nodes|
    requires 0 < count && tot + count <= |data| && part <= count && off <= s0.nodes[inum].size && s0.Inv()
    requires (off + tot) % BSIZE + count <= BSIZE && (tot == 0 || (off + tot) % BSIZE == 0)
    requires Written(s1, s2, inum, off + tot, data[tot..tot + part], part) && s2.Inv()
    requires s2.Mapped(inum, (off + tot) / BSIZE)
    requires Turn(logged1, logged2, maps, addr, s1.nodes[inum].addrs[NDIRECT], s2.nodes[inum].addrs[NDIRECT])
    requires AllLogged(s1.disk, s2.disk, if part == count then logged2 else logged2 + {addr})
    requires (off + tot) / BSIZE < MAXFILE && (s1.At(inum, SlotOf((off + tot) / BSIZE)) != 0 ==> maps == {})
    ensures Progress(s0, logged0, s2, logged2,
            Tally(if part == count then {} else {addr}, t.maps + maps, t.datas + {addr}, t.c + 1),
                     inum, off, data, if part == count then tot + count else tot, tot + part)
  {
    hide State.Inv, State.At, State.ByteOf, AllLogged, Written, MappedTo, Budget, BlocksIn, Turn;
    WrittenTrans(s0, s1, s2, inum, off, data, tot, data[tot..tot + part], part);
    WrittenOwned(s0, s2, inum, off, data, tot + part);
    ContentsSize(s2, inum);
    MappedMore(s1, s2, inum, off + tot, data[tot..tot + part], if part == count then count else 0);
    StepBlocks(off, tot, count);
    BlocksMono(off, tot + count, |data|);
    TurnFacts(logged1, logged2, maps, addr, s1.nodes[inum].addrs[NDIRECT], s2.nodes[inum].addrs[NDIRECT]);
    ProgressBudget(s0, logged0, s1, logged1, t, inum, off, data, tot, s2, logged2, addr, maps);
    var lost := if part == count then {} else {addr};
    assert logged2 + {} == logged2;
    AllLoggedTrans(s0.disk, s1.disk, s2.disk, logged1 + t.lost, logged2 + lost);
  }

  lemma ProgressSoFar(s0: State, logged0: set<nat>, s: State, logged: set<nat>, t: Tally, inum: nat, off: nat,
                      data: seq<nat>, tot: nat)
    requires Progress(s0, logged0, s, logged, t, inum, off, data, tot, tot) && t.lost == {}
    requires inum < |s0.nodes| && inum < |s.nodes|
    ensures t.c == BlocksIn(off, tot) && (t.c == 0 ==> s == s0 && logged == logged0)
    ensures var ind0, ind := s0.nodes[inum].addrs[NDIRECT], s.nodes[inum].addrs[NDIRECT];
            Budget(logged0, logged, t.maps, t.datas, ind0, ind, t.c, First(off, t.c))
  {
    hide State.Inv, State.At, State.ByteOf, AllLogged, Written, MappedTo, Budget, BlocksIn;
  }

  lemma ProgressBudget(s0: State, logged0: set<nat>, s1: State, logged1: set<nat>, t: Tally, inum: nat, off: nat,
                       data: seq<nat>, tot: nat,
                       s2: State, logged2: set<nat>, addr: nat, maps: set<nat>)
    requires Progress(s0, logged0, s1, logged1, t, inum, off, data, tot, tot) && t.lost == {}
    requires inum < |s0.nodes| && inum < |s1.nodes| && inum < |s2.nodes|
    requires off <= s0.nodes[inum].size && s0.Inv()
    requires Turn(logged1, logged2, maps, addr, s1.nodes[inum].addrs[NDIRECT], s2.nodes[inum].addrs[NDIRECT])
    requires (off + tot) / BSIZE < MAXFILE && (s1.At(inum, SlotOf((off + tot) / BSIZE)) != 0 ==> maps == {})
    ensures Budget(logged0, logged2, t.maps + maps, t.datas + {addr}, s0.nodes[inum].addrs[NDIRECT],
            s2.nodes[inum].addrs[NDIRECT], t.c + 1, First(off, t.c + 1))
  {
    hide State.Inv, State.At, State.ByteOf, Progress, Budget, Turn, BlocksIn, IndSet, First;
    ProgressSoFar(s0, logged0, s1, logged1, t, inum, off, data, tot);
    SomeBlocks(off, tot);
    MappedStart(s0, inum, off);
    TurnBudget(logged0, logged1, logged2, t.maps, maps, t.datas, addr, s0.nodes[inum].addrs[NDIRECT],
               s1.nodes[inum].addrs[NDIRECT], s2.nodes[inum].addrs[NDIRECT], t.c, off);
  }

  /** The first turn needs no new block when it starts inside one. */
  lemma TurnBudget(logged0: set<nat>, logged1: set<nat>, logged2: set<nat>, maps: set<nat>, maps1: set<nat>,
                   datas: set<nat>, addr: nat, ind0: nat, ind1: nat, ind2: nat, c: nat, off: nat)
    requires Budget(logged0, logged1, maps, datas, ind0, ind1, c, First(off, c))
    requires Turn(logged1, logged2, maps1, addr, ind1, ind2)
    requires c == 0 ==> ind1 == ind0 && logged1 == logged0 && (off % BSIZE != 0 ==> maps1 == {})
    ensures Budget(logged0, logged2, maps + maps1, datas + {addr}, ind0, ind2, c + 1, First(off, c + 1))
  {
    hide Budget, Turn;
    if c == 0 {
      BudgetZero(logged0, logged1, maps, datas, ind0, ind1, 0);
      BudgetFirst(logged0, logged2, maps1, addr, ind0, ind2, First(off, 1));
      assert maps + maps1 == maps1 && datas + {addr} == {addr};
    } else {
      BudgetStep(logged0, logged1, logged2, maps, maps1, datas, addr, ind0, ind1, ind2, c, First(off, c));
    }
  }

  /** How many blocks a write of `n` bytes at `off` logs at most: data blocks, bitmap blocks, the indirect
      block and the inode. */
  function WriteBound(off: nat, n: nat): nat { 2 * BlocksIn(off, n) + 3 - First(off, n) }

  /** One chunk of filewrite fits a transaction: MAXOPBLOCKS is 10. */
  lemma ChunkBound(off: nat, n: nat)
    requires n <= 3 * BSIZE
    ensures WriteBound(off, n) <= 10
  {
    if n > 0 {
      assert (off + n - 1) / BSIZE <= off / BSIZE + 3;
      if off % BSIZE == 0 { assert (off + n - 1) / BSIZE <= off / BSIZE + 2; }
    }
  }

  lemma ProgressDone(s0: State, logged0: set<nat>, s: State, logged: set<nat>, t: Tally,
                     inum: nat, off: nat, data: seq<nat>, tot: nat, k: nat, x: nat)
    requires Progress(s0, logged0, s, logged, t, inum, off, data, tot, k)
    requires t.lost == {} ==> tot == |data|
    ensures Written(s0, s, inum, off, data, k) && s.Shape() && inum < |s.nodes| && MappedTo(s, inum, off + tot)
    ensures |t.lost| <= 1 && logged0 <= logged && |logged + {x} - logged0| <= WriteBound(off, |data|)
    ensures AllLogged(s0.disk, s.disk, logged + {x} + t.lost)
  {
    hide State.Inv, State.At, State.ByteOf, AllLogged, MappedTo, BlocksIn;
    SomeBlocks(off, |data|);
    BudgetSize(logged0, logged, t.maps, t.datas, s0.nodes[inum].addrs[NDIRECT], s.nodes[inum].addrs[NDIRECT], t.c,
        First(off, t.c), x);
    AllLoggedMore(s0.disk, s.disk, logged + t.lost, logged + {x} + t.lost);
  }

  lemma AllLoggedMore(d: seq<Block>, d': seq<Block>, logged: set<nat>, more: set<nat>)
    requires AllLogged(d, d', logged) && logged <= more
    ensures AllLogged(d, d', more)
  {
    forall b: nat | b < |d| ensures LoggedAt(d, d', more, b) { assert LoggedAt(d, d', logged, b); }
  }

  /** `old_` with `data` written over it from `off` on. */
  function Put(old_: seq<nat>, off: nat, data: seq<nat>): seq<nat>
    requires off <= |old_|
  {
    old_[..off] + data + (if off + |data| < |old_| then old_[off + |data|..] else [])
  }

  /** A complete writei puts the bytes into the file and leaves all other files alone. */
  lemma WrittenContents(s: State, s': State, inum: nat, off: nat, data: seq<nat>)
    requires Written(s, s', inum, off, data, |data|) && off <= s.nodes[inum].size
    requires s'.nodes[inum].size == if off + |data| > s.nodes[inum].size then off + |data| else s.nodes[inum].size
    ensures Contents(s', inum) == Put(Contents(s, inum), off, data)
    ensures forall i: nat | i < |s.nodes| && i != inum :: Contents(s', i) == Contents(s, i)
  {
    hide State.At, State.ByteOf, State.NodeOk, State.BitOk, State.Owned;
    WrittenOwned(s, s', inum, off, data, |data|);
    var c, c' := Contents(s, inum), Contents(s', inum);
    forall x: nat | x < |c'| ensures c'[x] == Put(c, off, data)[x] {
      assert WrittenAt(s, s', inum, off, data, |data|, inum, x);
    }
    forall i: nat | i < |s.nodes| && i != inum ensures Contents(s', i) == Contents(s, i) {
      assert HeadKept(s, s', inum, i);
      forall x: nat | x < |Contents(s, i)| ensures Contents(s', i)[x] == Contents(s, i)[x] {
        assert WrittenAt(s, s', inum, off, data, |data|, i, x);
      }
    }
  }

  lemma BudgetZero(logged: set<nat>, logged': set<nat>, maps: set<nat>, datas: set<nat>, ind: nat, ind': nat,
                   first: nat)
    requires Budget(logged, logged', maps, datas, ind, ind', 0, first) && ind' == ind
    ensures maps == {} && datas == {}
  {
  }

  /** 1 if the first block of the range must be there already. */
  function First(off: nat, n: nat): nat { if off % BSIZE != 0 && n > 0 then 1 else 0 }

  lemma SomeBlocks(off: nat, n: nat)
    ensures BlocksIn(off, n) == 0 ==> n == 0
  {
    assert n > 0 ==> (off + n - 1) / BSIZE >= off / BSIZE;
  }

  lemma TurnFacts(logged: set<nat>, logged': set<nat>, maps: set<nat>, addr: nat, ind: nat, ind': nat)
    requires Turn(logged, logged', maps, addr, ind, ind')
    ensures logged <= logged' && logged + {} == logged && logged' + {} == logged'
  {
  }

  lemma ContentsSize(s: State, inum: nat)
    requires s.Inv() && inum < |s.nodes|
    ensures s.nodes[inum].size <= MAXFILE * BSIZE && s.sb.Ok() && s.Shape()
  {
    assert s.NodeOk(inum);
  }
}
