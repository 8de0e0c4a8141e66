/** The image builder (mkfs/mkfs.c). The bitmap is written last; `V` is the image with the bitmap that
    would be written now, and it is in the file system's invariant at every point. */
module Mkfs {
  import opened FsState
  import opened Fs
  import opened FsFree
  import Bits

  const FSSIZE: nat := 1000
  const NINODES: nat := 200
  const NMETA: nat := 46       // boot, super block, 30 log blocks, 13 inode blocks, 1 bitmap block
  const SB := Super(FSSIZE, NINODES, 32, 45, NMETA)

  /** The bitmap block with the first `n` bits set. */
  function FirstBits(n: nat): Block {
    if n == 0 then Zeros() else BitTo(FirstBits(n - 1), n - 1, true)
  }

  lemma SuperOk()
    ensures SB.Ok() && forall b: nat | b < FSSIZE :: SB.BBlock(b) == SB.bmapstart
  {
    forall b: nat | b < FSSIZE ensures SB.BBlock(b) == SB.bmapstart { assert b / BPB == 0; }
  }

  /** Exactly the first `n` blocks are marked. */
  lemma {:induction false} FirstBitsAt(disk: seq<Block>, n: nat, b: nat)
    requires |disk| == FSSIZE && n <= FSSIZE && b < FSSIZE && disk[SB.bmapstart] == FirstBits(n)
    ensures SB.BBlock(b) == SB.bmapstart && (BitAt(SB, disk, b) <==> b < n)
    decreases n
  {
    SuperOk();
    if n == 0 {
      ZeroBit(b % BPB % 8);
    } else {
      assert SB.BBlock(n - 1) == SB.bmapstart;
      var less := disk[SB.bmapstart := FirstBits(n - 1)];
      FirstBitsAt(less, n - 1, b);
      WithBitAt(SB, less, n - 1, true, b);
      assert WithBit(SB, less, n - 1, true) == disk;
    }
  }

  lemma ZeroBit(i: nat)
    ensures !Bits.Bit(0, i)
  {
    Bits.NoBits(i);
  }

  /** No blocks beyond `end` of a file. */
  ghost predicate TightTo(s: State, inum: nat, end: nat)
    requires inum < |s.nodes|
  {
    forall bn: nat | bn < MAXFILE && bn * BSIZE >= end :: s.At(inum, SlotOf(bn)) == 0
  }

  ghost predicate Unwritten(disk: seq<Block>, from: nat) {
    forall b: nat | from <= b < |disk| :: disk[b] == Zeros()
  }

  /** The next free block can be given to an empty slot. */
  lemma NextFree(s: State, inum: nat, slot: Slot, next: nat)
    requires s.Inv() && inum < |s.nodes| && slot.Ok() && s.At(inum, slot) == 0 && (slot.Entry? ==> s.At(inum, Ind) != 0)
    requires s.sb == SB && NMETA <= next < FSSIZE && s.disk[SB.bmapstart] == FirstBits(next)
    ensures s.MayPlant(inum, slot, next)
  {
    FirstBitsAt(s.disk, next, next);
    assert s.BitOk(next);
  }

  lemma EmptyImage(s: State)
    requires s.sb == SB && |s.disk| == FSSIZE && s.disk[SB.bmapstart] == FirstBits(NMETA) && |s.nodes| == NINODES
    requires s.owner == map[]
    requires forall i: nat | i < NINODES ::
            s.nodes[i].size == 0 && s.nodes[i].typ == 0 && forall j: nat | j <= NDIRECT :: s.nodes[i].addrs[j] == 0
    ensures s.Inv()
  {
    SuperOk();
    forall b: nat | b < s.sb.size ensures s.BitOk(b) { FirstBitsAt(s.disk, NMETA, b); }
  }

  class Image {
    var disk: seq<Block>
    var dinodes: seq<Dinode>
    var freeblock: nat
    var freeinode: nat
    ghost var owner: map<nat, Own>

    /** The image as balloc would finish it now. */
    ghost function V(): State
      reads this
      requires |disk| == FSSIZE
    {
      State(SB, disk[SB.bmapstart := FirstBits(freeblock)], dinodes, owner)
    }

    ghost predicate Valid()
      reads this
    {
      && |disk| == FSSIZE && NMETA <= freeblock <= FSSIZE && 1 <= freeinode <= NINODES == |dinodes| && V().Inv()
      && Unwritten(disk, freeblock) && (forall i: nat | freeinode <= i < NINODES :: dinodes[i].typ == 0)
      && forall i: nat | i < NINODES :: TightTo(V(), i, dinodes[i].size)
    }
  
    /** mkfs before any inode is made (mkfs/mkfs.c:93-115). */
    constructor ()
      ensures Valid() && freeblock == NMETA && freeinode == 1
    {
      disk := seq(FSSIZE, _ => Zeros());
      dinodes := seq(NINODES, _ => Dinode(0, 0, 0, 0, 0, seq(NDIRECT + 1, _ => 0)));
      freeblock, freeinode, owner := NMETA, 1, map[];
      new;
      EmptyImage(V());
    }

    /** The image with another version of inode `inum`. */
    ghost function W(inum: nat, din: Dinode): State
      reads this
      requires |disk| == FSSIZE && inum < |dinodes|
    {
      V().(nodes := dinodes[inum := din])
    }

    ghost predicate Ready(inum: nat, din: Dinode)
      reads this
    {
      && |disk| == FSSIZE && NMETA <= freeblock <= FSSIZE && |dinodes| == NINODES
      && inum < NINODES && W(inum, din).Inv()
      && Unwritten(disk, freeblock) && din.typ != 0
    }

    /** The next block for one of an inode's own slots (mkfs/mkfs.c:270, 275). */
    method TakeAddr(ghost inum: nat, din: Dinode, j: nat) returns (out: Dinode)
      requires Ready(inum, din) && j <= NDIRECT && din.addrs[j] == 0 && freeblock < FSSIZE
      modifies `freeblock, `owner
      ensures Ready(inum, out) && freeblock == old(freeblock) + 1
      ensures out == din.(addrs := din.addrs[j := old(freeblock)])
      ensures old(W(inum, din)).MayPlant(inum, AddrSlot(j), old(freeblock))
      ensures W(inum, out) == Hang(old(W(inum, din)), inum, AddrSlot(j), old(freeblock))
    {
      hide State.NodeOk, State.BitOk, State.Owned, FirstBits;
      ghost var s, b := W(inum, din), freeblock;
      NextFree(s, inum, AddrSlot(j), b);
      HangInv(s, inum, AddrSlot(j), b);
      BitsMore(b);
      out := din.(addrs := din.addrs[j := freeblock]);
      freeblock := freeblock + 1;
      owner := owner[b := Own(inum, AddrSlot(j))];
      SuperOk();
      assert W(inum, out).disk == Hang(s, inum, AddrSlot(j), b).disk;
      assert W(inum, out).nodes == Hang(s, inum, AddrSlot(j), b).nodes;
    }

    /** The next block for an entry of the indirect block (mkfs/mkfs.c:277-281). */
    method TakeEntry(ghost inum: nat, din: Dinode, k: nat)
      requires Ready(inum, din) && k < NINDIRECT && din.addrs[NDIRECT] != 0 && W(inum, din).At(inum, Entry(k)) == 0
      requires freeblock < FSSIZE
      modifies `freeblock, `owner, `disk
      ensures Ready(inum, din) && freeblock == old(freeblock) + 1
      ensures old(W(inum, din)).MayPlant(inum, Entry(k), old(freeblock))
      ensures W(inum, din) == Hang(old(W(inum, din)), inum, Entry(k), old(freeblock))
    {
      hide State.NodeOk, State.BitOk, State.Owned, FirstBits, SetWord, Word;
      ghost var s, b := W(inum, din), freeblock;
      HeldAt(s, inum, Ind);
      NextFree(s, inum, Entry(k), b);
      HangInv(s, inum, Entry(k), b);
      BelowFree(s, din.addrs[NDIRECT], b);
      BitsMore(b);
      disk := disk[din.addrs[NDIRECT] := SetWord(disk[din.addrs[NDIRECT]], k, freeblock)];
      freeblock := freeblock + 1;
      owner := owner[b := Own(inum, Entry(k))];
      SuperOk();
      assert W(inum, din).disk == Hang(s, inum, Entry(k), b).disk;
    }

    /** The block of `fbn` behind the indirect block, both taken from the free ones if there are none
        (mkfs/mkfs.c:273-282). */
    method IndirectFor(ghost inum: nat, din: Dinode, fbn: nat) returns (out: Dinode, x: nat)
      requires Ready(inum, din) && NDIRECT <= fbn < MAXFILE
      requires freeblock + 2 <= FSSIZE + (if din.addrs[NDIRECT] == 0 then 0 else 1)
      modifies `freeblock, `owner, `disk
      ensures Ready(inum, out) && out.(addrs := din.addrs) == din && x == W(inum, out).At(inum, SlotOf(fbn)) != 0
      ensures SameFiles(old(W(inum, din)), W(inum, out)) && OnlyBlock(old(W(inum, din)), W(inum, out), inum, fbn)
      ensures freeblock <= old(freeblock) + 1 + (if din.addrs[NDIRECT] == 0 then 1 else 0) && out.addrs[NDIRECT] != 0
    {
      hide State.Inv, State.At, SameFiles, OnlyBlock, Unwritten, Hang, State.MayPlant, Word;
      ghost var s0 := W(inum, din);
      InvOwned(s0);
      SameFilesRefl(s0);
      OnlyRefl(s0, inum, fbn);
      out := din;
      if out.addrs[NDIRECT] == 0 {
        ghost var b := freeblock;
        out := TakeAddr(inum, out, NDIRECT);
        HangAll(s0, inum, Ind, b, fbn);
      }
      ghost var s1 := W(inum, out);
      IndEntry(s1, inum, fbn - NDIRECT);
      if Word(disk[out.addrs[NDIRECT]], fbn - NDIRECT) == 0 {
        ghost var b := freeblock;
        TakeEntry(inum, out, fbn - NDIRECT);
        HangAll(s1, inum, Entry(fbn - NDIRECT), b, fbn);
        SameFilesTrans(s0, s1, W(inum, out));
        OnlyTrans(s0, s1, W(inum, out), inum, fbn);
      }
      IndEntry(W(inum, out), inum, fbn - NDIRECT);
      x := Word(disk[out.addrs[NDIRECT]], fbn - NDIRECT);
    }

    /** The block of `fbn`, taken from the free ones if there is none (mkfs/mkfs.c:268-283). */
    method BlockFor(ghost inum: nat, din: Dinode, fbn: nat) returns (out: Dinode, x: nat)
      requires Ready(inum, din) && fbn < MAXFILE && freeblock + 2 <= FSSIZE + (if din.addrs[NDIRECT] == 0 then 0 else 1)
      modifies `freeblock, `owner, `disk
      ensures Ready(inum, out) && out.(addrs := din.addrs) == din && x == W(inum, out).At(inum, SlotOf(fbn)) != 0
      ensures SameFiles(old(W(inum, din)), W(inum, out)) && OnlyBlock(old(W(inum, din)), W(inum, out), inum, fbn)
      ensures freeblock + (if din.addrs[NDIRECT] == 0 then 0 else 1)
              <= old(freeblock) + 1 + (if out.addrs[NDIRECT] == 0 then 0 else 1)
    {
      hide State.Inv, State.At, SameFiles, OnlyBlock, Unwritten, Hang, State.MayPlant;
      ghost var s0 := W(inum, din);
      InvOwned(s0);
      if fbn >= NDIRECT {
        out, x := IndirectFor(inum, din, fbn);
        return;
      }
      SameFilesRefl(s0);
      OnlyRefl(s0, inum, fbn);
      out := din;
      AtAddr(s0, inum, fbn);
      if out.addrs[fbn] == 0 {
        ghost var b := freeblock;
        out := TakeAddr(inum, out, fbn);
        HangAll(s0, inum, Direct(fbn), b, fbn);
      }
      AtAddr(W(inum, out), inum, fbn);
      x := out.addrs[fbn];
    }

    /** One turn of iappend (mkfs/mkfs.c:266-291). */
    method AppendOne(ghost inum: nat, din: Dinode, off: nat, piece: seq<nat>) returns (out: Dinode)
      requires Ready(inum, din) && off / BSIZE < MAXFILE && off % BSIZE + |piece| <= BSIZE
      requires freeblock + 2 <= FSSIZE + (if din.addrs[NDIRECT] == 0 then 0 else 1)
      modifies `freeblock, `owner, `disk
      ensures Ready(inum, out) && out.(addrs := din.addrs) == din
      ensures Written(old(W(inum, din)), W(inum, out), inum, off, piece, |piece|) && W(inum, out).Shape()
      ensures W(inum, out).Mapped(inum, off / BSIZE)
      ensures OnlyBlock(old(W(inum, din)), W(inum, out), inum, off / BSIZE)
      ensures freeblock + (if din.addrs[NDIRECT] == 0 then 0
              else 1) <= old(freeblock) + 1 + (if out.addrs[NDIRECT] == 0 then 0 else 1)
    {
      hide State.Inv, State.At, SameFiles, OnlyBlock, Hang, State.MayPlant, Written, FirstBits;
      ghost var s0 := W(inum, din);
      var x;
      out, x := BlockFor(inum, din, off / BSIZE);
      ghost var s1 := W(inum, out);
      PieceWritten(s0, s1, inum, off, piece);
      InvOwned(s1);
      HeldAt(s1, inum, SlotOf(off / BSIZE));
      BelowFree(s1, x, freeblock);
      StoreOnly(s1, x, Bits.Splice(s1.disk[x], off % BSIZE, piece), inum, off / BSIZE);
      disk := disk[x := Bits.Splice(disk[x], off % BSIZE, piece)];
      assert W(inum, out).disk == s1.disk[x := Bits.Splice(s1.disk[x], off % BSIZE, piece)];
      OnlyTrans(s0, s1, W(inum, out), inum, off / BSIZE);
      InvOwned(W(inum, out));
    }

    /** The loop of iappend (mkfs/mkfs.c:265-291). */
    method AppendLoop(ghost inum: nat, din0: Dinode, data: seq<nat>) returns (din: Dinode, off: nat)
      requires Ready(inum, din0) && din0 == dinodes[inum] && TightTo(W(inum, din0), inum, din0.size)
      requires din0.size + |data| <= MAXFILE * BSIZE && freeblock + BlocksIn(din0.size, |data|) + 1 <= FSSIZE
      modifies `freeblock, `owner, `disk
      ensures Ready(inum, din) && din.(addrs := din0.addrs) == din0 && off == din0.size + |data|
      ensures Written(old(W(inum, din0)), W(inum, din), inum, din0.size, data, |data|)
      ensures W(inum, din).Shape() && MappedTo(W(inum, din), inum, off)
      ensures OthersAt(old(W(inum, din0)), W(inum, din), inum) && TightTo(W(inum, din), inum, off)
      ensures freeblock <= old(freeblock) + BlocksIn(din0.size, |data|) + 1
    {
      hide State.Inv, State.At, Written, TightTo, MappedTo, FirstBits, BlocksIn, OnlyBlock, OthersAt, Unwritten;
      ghost var s0 := W(inum, din0);
      din := din0;
      var n, p := |data|, 0;
      off := din.size;
      ghost var size0, fb0, ind0 := din.size, freeblock, din.addrs[NDIRECT];
      MappedStart(s0, inum, off);
      WrittenNone(s0, inum, off, data);
      OthersRefl(s0, inum);
      NoBlocks(size0);
      ContentsSize(s0, inum);
      while n > 0
        invariant 0 <= n <= |data| && p == |data| - n && off == size0 + p && (p == 0 || n == 0 || off % BSIZE == 0)
        invariant Ready(inum, din) && din.(addrs := din0.addrs) == din0
        invariant Written(s0, W(inum, din), inum, size0, data, p) && W(inum, din).Shape()
        invariant MappedTo(W(inum, din), inum, off)
        invariant OthersAt(s0, W(inum, din), inum) && TightTo(W(inum, din), inum, off)
        invariant freeblock + (if ind0 == 0 then 0
                else 1) <= fb0 + BlocksIn(size0, p) + (if din.addrs[NDIRECT] == 0 then 0 else 1)
      {
        ghost var s1 := W(inum, din);
        var fbn := off / BSIZE;
        var n1 := if n < (fbn + 1) * BSIZE - off then n else (fbn + 1) * BSIZE - off;
        StepBlocks(size0, p, n1);
        BlocksMono(size0, p + n1, |data|);
        din := AppendOne(inum, din, off, data[p..p + n1]);
        WrittenTrans(s0, s1, W(inum, din), inum, size0, data, p, data[p..p + n1], n1);
        MappedMore(s1, W(inum, din), inum, off, data[p..p + n1], n1);
        OthersMore(s0, s1, W(inum, din), inum, fbn);
        TightMore(s1, W(inum, din), inum, off, n1);
        n := n - n1;
        off := off + n1;
        p := p + n1;
      }
    }

    /** iappend (mkfs/mkfs.c:252-294), for data that fits the file and the image: the bytes are added at
        the end of the file and every other file stays. */
    method Iappend(inum: nat, data: seq<nat>)
      requires Valid() && inum < freeinode && dinodes[inum].typ != 0
      requires dinodes[inum].size + |data| <= MAXFILE * BSIZE
      requires freeblock + BlocksIn(dinodes[inum].size, |data|) + 1 <= FSSIZE
      modifies `freeblock, `owner, `disk, `dinodes
      ensures Valid() && freeblock <= old(freeblock) + BlocksIn(old(dinodes[inum].size), |data|) + 1
      ensures dinodes[inum].size == old(dinodes[inum].size) + |data| && dinodes[inum].typ == old(dinodes[inum].typ)
      ensures Contents(V(), inum) == Contents(old(V()), inum) + data
      ensures forall i: nat | i < NINODES && i != inum ::
              Contents(V(), i) == Contents(old(V()), i) && dinodes[i] == old(dinodes[i])
    {
      hide State.Inv, State.At, Written, TightTo, MappedTo, FirstBits, BlocksIn, OnlyBlock, OthersAt, Unwritten;
      ghost var s0 := V();
      var din := dinodes[inum];
      ghost var size0 := din.size;
      assert W(inum, din) == s0;
      var off;
      din, off := AppendLoop(inum, din, data);
      ghost var s2 := W(inum, din);
      WrittenResize(s0, s2, inum, size0, data, |data|, off);
      dinodes := dinodes[inum := din.(size := off)];
      assert V() == Resize(s2, inum, off);
      AppendDone(s0, s2, V(), inum, size0, data);
    }

    /** ialloc (mkfs/mkfs.c:220-232). */
    method Ialloc(typ: nat) returns (inum: nat)
      requires Valid() && freeinode < NINODES && typ != 0
      modifies `freeinode, `dinodes
      ensures Valid() && inum == old(freeinode) && freeinode == old(freeinode) + 1
      ensures dinodes == old(dinodes)[inum := Dinode(typ, 0, 0, 1, 0, seq(NDIRECT + 1, _ => 0))]
      ensures Contents(V(), inum) == []
      ensures forall i: nat | i < NINODES && i != inum :: Contents(V(), i) == Contents(old(V()), i)
    {
      hide State.Inv, State.At, FirstBits, Unwritten, TightTo;
      ghost var s := V();
      inum := freeinode;
      freeinode := freeinode + 1;
      var din := Dinode(typ, 0, 0, 1, 0, seq(NDIRECT + 1, _ => 0));
      FreeInode(s, inum);
      RetypeInv(s, inum, din);
      dinodes := dinodes[inum := din];
      assert V() == s.(nodes := s.nodes[inum := din]);
      forall i: nat | i < NINODES ensures TightTo(V(), i, dinodes[i].size) { TightNew(s, V(), inum, din, i); }
    }

    /** balloc (mkfs/mkfs.c:234-248): the bitmap gets exactly the first `used` bits. */
    method Balloc(used: nat)
      requires |disk| == FSSIZE && used < BSIZE * 8
      modifies `disk
      ensures disk == old(disk)[SB.bmapstart := FirstBits(used)]
    {
      var buf := Zeros();
      var i := 0;
      while i < used
        invariant 0 <= i <= used && buf == FirstBits(i)
      {
        buf := BitTo(buf, i, true);
        i := i + 1;
      }
      disk := disk[SB.bmapstart := buf];
    }

    /** The end of mkfs (mkfs/mkfs.c:163-170): the root directory's size is rounded to the next whole block
        and the bitmap is written. The image is then in the file system's invariant exactly when the
        size was not a whole number of blocks; otherwise the root directory ends in a hole. */
    method Finish(root: nat)
      requires Valid() && root < freeinode && dinodes[root].size < MAXFILE * BSIZE
      modifies `disk, `dinodes
      ensures |disk| == FSSIZE && |dinodes| == NINODES
      ensures var din := old(dinodes[root]);
              dinodes == old(dinodes)[root := din.(size := (din.size / BSIZE + 1) * BSIZE)]
      ensures disk == old(V()).disk
      ensures State(SB, disk, dinodes, owner).Inv() <==> old(dinodes[root].size) % BSIZE != 0
    {
      hide State.Inv, State.At, FirstBits, Unwritten, TightTo;
      ghost var s := V();
      var din := dinodes[root];
      RootRounding(s, root, din.size);
      var off := (din.size / BSIZE + 1) * BSIZE;
      dinodes := dinodes[root := din.(size := off)];
      Balloc(freeblock);
      assert State(SB, disk, dinodes, owner) == Resize(s, root, off);
    }
  }

  lemma TightNew(s: State, s': State, inum: nat, din: Dinode, i: nat)
    requires s.Inv() && inum < |s.nodes| && s' == s.(nodes := s.nodes[inum := din]) && i < |s.nodes|
    requires TightTo(s, i, s.nodes[i].size)
    requires forall t: Slot | t.Ok() :: s.At(inum, t) == 0
    requires forall j: nat | j <= NDIRECT :: din.addrs[j] == 0
    ensures TightTo(s', i, s'.nodes[i].size)
  {
    forall bn: nat | bn < MAXFILE && bn * BSIZE >= s'.nodes[i].size ensures s'.At(i, SlotOf(bn)) == 0 {
      RetypeAt(s, inum, din, i, SlotOf(bn));
    }
  }

  /** Rounding a size up to the next block keeps the file without holes unless it was whole already. */
  lemma RootRounding(s: State, inum: nat, size: nat)
    requires s.Inv() && inum < |s.nodes| && size == s.nodes[inum].size < MAXFILE * BSIZE && TightTo(s, inum, size)
    ensures Resize(s, inum, (size / BSIZE + 1) * BSIZE).Inv() <==> size % BSIZE != 0
  {
    hide State.At;
    var bn := size / BSIZE;
    var s' := Resize(s, inum, (bn + 1) * BSIZE);
    if size % BSIZE != 0 {
      assert s.NodeOk(inum);
      forall c: nat | c * BSIZE < (bn + 1) * BSIZE ensures s.Mapped(inum, c) { assert c * BSIZE < size; }
      ResizeInv(s, inum, (bn + 1) * BSIZE);
    } else {
      assert s.At(inum, SlotOf(bn)) == 0;
      ResizeAt(s, inum, (bn + 1) * BSIZE, SlotOf(bn));
      assert s'.Inv() ==> s'.NodeOk(inum) && s'.Mapped(inum, bn);
    }
  }

  lemma ResizeAt(s: State, inum: nat, size: nat, t: Slot)
    requires inum < |s.nodes| && t.Ok()
    ensures Resize(s, inum, size).At(inum, t) == s.At(inum, t)
  {
  }

  lemma OthersRefl(s: State, inum: nat)
    ensures OthersAt(s, s, inum)
  {
  }

  lemma OthersMore(s: State, s1: State, s2: State, inum: nat, bn: nat)
    requires OthersAt(s, s1, inum) && OnlyBlock(s1, s2, inum, bn)
    ensures OthersAt(s, s2, inum)
  {
    hide State.At;
    forall i: nat, t: Slot | i < |s.nodes| && i != inum && t.Ok() ensures AtSame(s, s2, i, t) {
      assert AtSame(s, s1, i, t) && AtSame(s1, s2, i, t);
    }
  }

  /** Only the block of the new bytes was added. */
  lemma TightMore(s: State, s': State, inum: nat, off: nat, n: nat)
    requires inum < |s.nodes| && inum < |s'.nodes| && TightTo(s, inum, off) && OnlyBlock(s, s', inum, off / BSIZE)
    requires n > 0
    ensures TightTo(s', inum, off + n)
  {
    hide State.At;
    forall bn: nat | bn < MAXFILE && bn * BSIZE >= off + n ensures s'.At(inum, SlotOf(bn)) == 0 {
      assert bn != off / BSIZE;
      assert AtSame(s, s', inum, SlotOf(bn));
    }
  }

  lemma NoBlocks(off: nat)
    ensures BlocksIn(off, 0) == 0
  {
  }

  lemma AppendDone(s0: State, s2: State, s: State, inum: nat, off: nat, data: seq<nat>)
    requires inum < |s2.nodes| && inum < |s0.nodes| && s == Resize(s2, inum, off + |data|)
    requires Written(s0, s, inum, off, data, |data|) && off == s0.nodes[inum].size
    requires OthersAt(s0, s2, inum) && TightTo(s2, inum, off + |data|)
    requires forall i: nat | i < |s0.nodes| :: TightTo(s0, i, s0.nodes[i].size)
    requires forall i: nat | i < |s0.nodes| && i != inum :: s.nodes[i] == s0.nodes[i]
    ensures s.Inv() && Contents(s, inum) == Contents(s0, inum) + data
    ensures forall i: nat | i < |s.nodes| :: TightTo(s, i, s.nodes[i].size)
    ensures forall i: nat | i < |s.nodes| && i != inum :: Contents(s, i) == Contents(s0, i)
  {
    hide State.Inv, State.ByteOf;
    WrittenOwned(s0, s, inum, off, data, |data|);
    WrittenContents(s0, s, inum, off, data);
    assert Put(Contents(s0, inum), off, data) == Contents(s0, inum) + data;
    forall i: nat | i < |s.nodes| ensures TightTo(s, i, s.nodes[i].size) {
      TightKept(s0, s2, s, inum, off + |data|, i);
    }
  }

  lemma TightKept(s0: State, s2: State, s: State, inum: nat, end: nat, i: nat)
    requires inum < |s2.nodes| == |s0.nodes| && i < |s0.nodes| && s == Resize(s2, inum, end) && OthersAt(s0, s2, inum)
    requires TightTo(s2, inum, end)
    requires TightTo(s0, i, s0.nodes[i].size) && (i != inum ==> s.nodes[i] == s0.nodes[i])
    ensures TightTo(s, i, s.nodes[i].size)
  {
    forall bn: nat | bn < MAXFILE && bn * BSIZE >= s.nodes[i].size ensures s.At(i, SlotOf(bn)) == 0 {
      assert s.At(i, SlotOf(bn)) == s2.At(i, SlotOf(bn));
      if i != inum { assert AtSame(s0, s2, i, SlotOf(bn)); }
    }
  }

  lemma AtAddr(s: State, inum: nat, j: nat)
    requires inum < |s.nodes| && j <= NDIRECT
    ensures s.At(inum, AddrSlot(j)) == s.nodes[inum].addrs[j]
  {
  }

  lemma HangAll(s: State, inum: nat, slot: Slot, b: nat, bn: nat)
    requires s.MayPlant(inum, slot, b) && bn < MAXFILE && (slot == SlotOf(bn) || slot == Ind)
    ensures SameFiles(s, Hang(s, inum, slot, b)) && OnlyBlock(s, Hang(s, inum, slot, b), inum, bn)
    ensures |Hang(s, inum, slot, b).nodes| == |s.nodes| && Hang(s, inum, slot, b).At(inum, slot) == b && b != 0
  {
    HangFiles(s, inum, slot, b);
    HangOnly(s, inum, slot, b, bn);
  }

  lemma IndEntry(s: State, inum: nat, k: nat)
    requires s.Inv() && inum < |s.nodes| && k < NINDIRECT && s.nodes[inum].addrs[NDIRECT] != 0
    ensures s.sb.meta <= s.nodes[inum].addrs[NDIRECT] < |s.disk|
    ensures s.At(inum, Entry(k)) == Word(s.disk[s.nodes[inum].addrs[NDIRECT]], k)
  {
    HeldAt(s, inum, Ind);
  }

  lemma BitsMore(n: nat)
    ensures FirstBits(n + 1) == BitTo(FirstBits(n), n, true)
  {
  }

  /** All held blocks lie below the next free one. */
  lemma BelowFree(s: State, b: nat, next: nat)
    requires s.Inv() && s.sb == SB && b in s.owner && next <= FSSIZE && s.disk[SB.bmapstart] == FirstBits(next)
    ensures NMETA <= b < next
  {
    assert s.OwnOk(b) && s.BitOk(b);
    FirstBitsAt(s.disk, next, b);
  }
}
