/** The file system's blocks as kernel/fs.c uses them: the free bitmap, the inodes, and who holds
    which block. The state is a value here; each elementary change comes with a proof that it keeps
    the ownership invariant, and with its effect on the bytes of every file. */
module FsState {
  import opened Bits

  const BSIZE: nat := 1024
  const NDIRECT: nat := 12
  const NINDIRECT: nat := 256
  const MAXFILE: nat := NDIRECT + NINDIRECT
  const BPB: nat := 8192     // bitmap bits per block
  const IPB: nat := 16       // inodes per block
  const WRAP: nat := 0x1_0000_0000

  type Block = b: seq<nat> | |b| == BSIZE witness seq(BSIZE, _ => 0)
  type Addrs = a: seq<nat> | |a| == NDIRECT + 1 witness seq(NDIRECT + 1, _ => 0)

  datatype Super = Super(size: nat, ninodes: nat, inodestart: nat, bmapstart: nat, meta: nat) {
    /** The bitmap covers the disk; it and the inodes lie before the data blocks, which start at `meta`. */
    ghost predicate Ok() {
      && 0 < bmapstart && size < WRAP && 0 < meta <= size
      && (forall b: nat | b < size :: bmapstart <= BBlock(b) < meta)
      && (forall i: nat | i < ninodes :: IBlock(i) < meta)
    }
    /** BBLOCK. */
    function BBlock(b: nat): nat { b / BPB + bmapstart }
    /** IBLOCK. */
    function IBlock(inum: nat): nat { inum / IPB + inodestart }
  }

  datatype Dinode = Dinode(typ: nat, major: nat, minor: nat, nlink: nat, size: nat, addrs: Addrs)

  /** Where an inode keeps a block number: a direct slot, the indirect slot, an indirect entry. */
  datatype Slot = Direct(i: nat) | Ind | Entry(k: nat) {
    predicate Ok() { match this case Direct(i) => i < NDIRECT case Ind => true case Entry(k) => k < NINDIRECT }
  }

  datatype Own = Own(inum: nat, slot: Slot)

  /** The slot of the `bn`-th block of a file. */
  function SlotOf(bn: nat): Slot { if bn < NDIRECT then Direct(bn) else Entry(bn - NDIRECT) }

  /** The k-th 32-bit number of a block, lowest byte first. */
  function Word(b: Block, k: nat): nat
    requires k < NINDIRECT
  {
    b[4 * k] + 256 * b[4 * k + 1] + 0x1_0000 * b[4 * k + 2] + 0x100_0000 * b[4 * k + 3]
  }

  function SetWord(b: Block, k: nat, w: nat): Block
    requires k < NINDIRECT && w < WRAP
  {
    b[4 * k := w % 256][4 * k + 1 := w / 256 % 256][4 * k + 2 := w / 256 / 256 % 256][4 * k + 3 := w / 256 / 256 / 256]
  }

  lemma SetWordAt(b: Block, k: nat, w: nat, j: nat)
    requires k < NINDIRECT && w < WRAP && j < NINDIRECT
    ensures Word(SetWord(b, k, w), j) == if j == k then w else Word(b, j)
  {
    if j == k {
      assert w
          == w % 256 + 256 * (w / 256 % 256) + 0x1_0000 * (w / 256 / 256 % 256) + 0x100_0000 * (w / 256 / 256 / 256);
    }
  }

  /** Block numbers lie in a block as 32-bit numbers, lowest byte first. */
  lemma WordBytes(b: Block, k: nat, w: nat)
    requires k < NINDIRECT && w < WRAP
    ensures b[4 * k..4 * k + 4] == Bytes4(w) ==> Word(b, k) == w
    ensures SetWord(b, k, w)[4 * k..4 * k + 4] == Bytes4(w)
  {
    Pow2Of32();
    var x := b[4 * k..4 * k + 4];
    assert x[0] == b[4 * k] && x[1] == b[4 * k + 1] && x[2] == b[4 * k + 2] && x[3] == b[4 * k + 3];
    assert w / 256 / 256 / 256 < 256;
  }

  function Zeros(): (b: Block)
    ensures forall i: nat | i < BSIZE :: b[i] == 0
  {
    seq(BSIZE, _ => 0)
  }

  /** The bit of block `b` in the free bitmap. */
  ghost predicate BitAt(sb: Super, disk: seq<Block>, b: nat)
    requires sb.BBlock(b) < |disk|
  {
    Bit(disk[sb.BBlock(b)][b % BPB / 8], b % BPB % 8)
  }

  /** A bitmap block with the bit of `b` set or cleared. */
  function BitTo(block: Block, b: nat, on: bool): Block {
    var byte: nat := if on then SetBit(block[b % BPB / 8], b % BPB % 8) else ClearBit(block[b % BPB / 8], b % BPB % 8);
    block[b % BPB / 8 := byte]
  }

  ghost function WithBit(sb: Super, disk: seq<Block>, b: nat, on: bool): (d: seq<Block>)
    requires sb.BBlock(b) < |disk|
    ensures |d| == |disk|
  {
    disk[sb.BBlock(b) := BitTo(disk[sb.BBlock(b)], b, on)]
  }

  lemma WithBitAt(sb: Super, disk: seq<Block>, b: nat, on: bool, c: nat)
    requires sb.BBlock(b) < |disk| && sb.BBlock(c) < |disk|
    ensures BitAt(sb, WithBit(sb, disk, b, on), c) <==> if c == b then on else BitAt(sb, disk, c)
  {
    hide Bit, SetBit, ClearBit;
    var byte := disk[sb.BBlock(b)][b % BPB / 8];
    SetBitAt(byte, b % BPB % 8, c % BPB % 8);
    ClearBitAt(byte, b % BPB % 8, c % BPB % 8);
    BitPlace(b, c);
  }

  lemma BitPlace(b: nat, c: nat)
    ensures b / BPB == c / BPB && b % BPB / 8 == c % BPB / 8 && b % BPB % 8 == c % BPB % 8 ==> b == c
  {
    assert b == b / BPB * BPB + b % BPB && c == c / BPB * BPB + c % BPB;
  }

  datatype State = State(sb: Super, disk: seq<Block>, nodes: seq<Dinode>, owner: map<nat, Own>) {
    /** The parts have the right sizes. */
    ghost predicate Shape() { sb.Ok() && |disk| == sb.size && |nodes| == sb.ninodes }

    /** The block number kept in a slot, 0 for none. */
    ghost function At(inum: nat, slot: Slot): nat
      requires inum < |nodes| && slot.Ok()
    {
      var addrs := nodes[inum].addrs;
      match slot
      case Direct(i) => addrs[i]
      case Ind => addrs[NDIRECT]
      case Entry(k) => if 0 < addrs[NDIRECT] < |disk| then Word(disk[addrs[NDIRECT]], k) else 0
    }

    /** A block's bit is set exactly when it is metadata or held by an inode. */
    ghost predicate BitOk(b: nat)
      requires Shape() && b < sb.size
    {
      assert sb.BBlock(b) < sb.meta;
      BitAt(sb, disk, b) <==> b < sb.meta || b in owner
    }

    /** A held block is a data block, and is in the slot its owner says. */
    ghost predicate OwnOk(b: nat)
      requires Shape() && b in owner
    {
      sb.meta <= b < sb.size && owner[b].inum < |nodes| && owner[b].slot.Ok() && At(owner[b].inum, owner[b].slot) == b
    }

    /** What is in a slot is held by it. */
    ghost predicate SlotOk(inum: nat, slot: Slot)
      requires Shape() && inum < |nodes| && slot.Ok()
    {
      At(inum, slot) != 0 ==> At(inum, slot) in owner && owner[At(inum, slot)] == Own(inum, slot)
    }

    /** A free inode holds nothing, and a file has no holes. */
    ghost predicate NodeOk(inum: nat)
      requires Shape() && inum < |nodes|
    {
      && nodes[inum].size <= MAXFILE * BSIZE
      && (nodes[inum].typ == 0 ==> forall slot: Slot | slot.Ok() :: At(inum, slot) == 0)
      && (forall bn: nat | bn * BSIZE < nodes[inum].size :: Mapped(inum, bn))
    }

    ghost predicate Mapped(inum: nat, bn: nat)
      requires Shape() && inum < |nodes|
    {
      bn < MAXFILE && At(inum, SlotOf(bn)) != 0
    }

    /** Every data block is held by at most one slot of one inode. */
    ghost predicate Owned() {
      && Shape()
      && (forall b | b in owner :: OwnOk(b))
      && (forall i: nat, slot: Slot | i < |nodes| && slot.Ok() :: SlotOk(i, slot))
    }

    ghost predicate Inv() {
      && Shape() && Owned()
      && (forall b: nat | b < sb.size :: BitOk(b))
      && (forall i: nat | i < |nodes| :: NodeOk(i))
    }

    /** The byte at offset `x` of file `inum`; a missing block reads as zeros. */
    ghost function ByteOf(inum: nat, x: nat): nat
      requires Owned() && inum < |nodes| && x < MAXFILE * BSIZE
    {
      var a := At(inum, SlotOf(x / BSIZE));
      if a == 0 then 0 else assert SlotOk(inum, SlotOf(x / BSIZE)) && OwnOk(a); disk[a][x % BSIZE]
    }

    /** A block number is stored in a slot. */
    ghost function SetSlot(inum: nat, slot: Slot, b: nat): (s: State)
      requires inum < |nodes| && slot.Ok() && b < WRAP && (slot.Entry? ==> nodes[inum].addrs[NDIRECT] < |disk|)
      ensures s.sb == sb && |s.disk| == |disk| && |s.nodes| == |nodes| && s.owner == owner
    {
      var n := nodes[inum];
      match slot
      case Direct(i) => this.(nodes := nodes[inum := n.(addrs := n.addrs[i := b])])
      case Ind => this.(nodes := nodes[inum := n.(addrs := n.addrs[NDIRECT := b])])
      case Entry(k) => this.(disk := disk[n.addrs[NDIRECT] := SetWord(disk[n.addrs[NDIRECT]], k, b)])
    }

    ghost predicate MayPlant(inum: nat, slot: Slot, b: nat) {
      && Shape() && Owned() && inum < |nodes| && slot.Ok() && At(inum, slot) == 0
      && (slot.Entry? ==> At(inum, Ind) != 0)
      && sb.meta <= b < sb.size && b !in owner
    }

    /** A free block is zeroed and put into an empty slot. */
    ghost function Plant(inum: nat, slot: Slot, b: nat): State
      requires MayPlant(inum, slot, b)
    {
      assert SlotOk(inum, Ind) && (At(inum, Ind) != 0 ==> OwnOk(At(inum, Ind)));
      this.(disk := disk[b := Zeros()]).SetSlot(inum, slot, b).(owner := owner[b := Own(inum, slot)])
    }

    /** The contents of a data block are replaced. */
    ghost function Store(b: nat, data: Block): State
      requires b < |disk|
    {
      this.(disk := disk[b := data])
    }

    /** The bit of block `b` is set or cleared. */
    ghost function Mark(b: nat, on: bool): State
      requires Shape() && b < sb.size
    {
      assert sb.BBlock(b) < sb.meta;
      this.(disk := WithBit(sb, disk, b, on))
    }
  }

  ghost predicate AtSame(s: State, s': State, i: nat, t: Slot)
    requires i < |s.nodes| && i < |s'.nodes| && t.Ok()
  {
    s'.At(i, t) == s.At(i, t)
  }

  ghost predicate ByteSame(s: State, s': State, i: nat, x: nat)
    requires s.Owned() && s'.Owned() && i < |s.nodes| && i < |s'.nodes| && x < MAXFILE * BSIZE
  {
    s'.ByteOf(i, x) == s.ByteOf(i, x)
  }

  /** A held slot's block is a data block. */
  lemma HeldAt(s: State, i: nat, t: Slot)
    requires s.Owned() && i < |s.nodes| && t.Ok() && s.At(i, t) != 0
    ensures s.At(i, t) in s.owner && s.owner[s.At(i, t)] == Own(i, t) && s.sb.meta <= s.At(i, t) < s.sb.size
  {
    assert s.SlotOk(i, t) && s.OwnOk(s.At(i, t));
  }

  lemma PlantAt(s: State, inum: nat, slot: Slot, b: nat, i: nat, t: Slot)
    requires s.MayPlant(inum, slot, b) && i < |s.nodes| && t.Ok()
    ensures s.Plant(inum, slot, b).At(i, t) == if i == inum && t == slot then b else s.At(i, t)
  {
    hide Word, SetWord;
    if s.At(i, Ind) != 0 { HeldAt(s, i, Ind); }
    if s.At(inum, Ind) != 0 { HeldAt(s, inum, Ind); }
    if t.Entry? {
      assert Word(Zeros(), t.k) == 0 by { WordZero(t.k); }
      if slot.Entry? { SetWordAt(s.disk[s.At(inum, Ind)], slot.k, b, t.k); }
    }
  }

  lemma WordZero(k: nat)
    requires k < NINDIRECT
    ensures Word(Zeros(), k) == 0
  {
  }

  /** Planting keeps every other slot, and every byte of every file. */
  lemma PlantOwned(s: State, inum: nat, slot: Slot, b: nat)
    requires s.MayPlant(inum, slot, b)
    ensures s.Plant(inum, slot, b).Owned()
    ensures forall i: nat, t: Slot | i < |s.nodes| && t.Ok() && !(i == inum && t == slot) ::
            AtSame(s, s.Plant(inum, slot, b), i, t)
    ensures s.Plant(inum, slot, b).At(inum, slot) == b
  {
    hide State.At;
    var s' := s.Plant(inum, slot, b);
    forall i: nat, t: Slot | i < |s.nodes| && t.Ok()
      ensures !(i == inum && t == slot) ==> AtSame(s, s', i, t)
      ensures s'.SlotOk(i, t)
    {
      PlantAt(s, inum, slot, b, i, t);
      assert s.SlotOk(i, t);
    }
    PlantAt(s, inum, slot, b, inum, slot);
    forall c | c in s'.owner ensures s'.OwnOk(c) {
      if c != b { assert s.OwnOk(c); PlantAt(s, inum, slot, b, s.owner[c].inum, s.owner[c].slot); }
    }
  }

  lemma PlantByte(s: State, inum: nat, slot: Slot, b: nat, i: nat, x: nat)
    requires s.MayPlant(inum, slot, b) && s.Plant(inum, slot, b).Owned() && i < |s.nodes| && x < MAXFILE * BSIZE
    ensures ByteSame(s, s.Plant(inum, slot, b), i, x)
  {
    hide State.At, Word, SetWord;
    var t := SlotOf(x / BSIZE);
    PlantAt(s, inum, slot, b, i, t);
    if s.At(i, t) != 0 { HeldAt(s, i, t); }
    if s.At(inum, Ind) != 0 { HeldAt(s, inum, Ind); }
    AtInd(s, inum);
  }

  lemma AtInd(s: State, i: nat)
    requires i < |s.nodes|
    ensures s.At(i, Ind) == s.nodes[i].addrs[NDIRECT]
  {
  }

  /** Changing bitmap bits touches no slot and no file. */
  lemma MarkAt(s: State, b: nat, on: bool, i: nat, t: Slot)
    requires s.Owned() && b < s.sb.size && i < |s.nodes| && t.Ok()
    ensures AtSame(s, s.Mark(b, on), i, t)
  {
    assert s.sb.BBlock(b) < s.sb.meta;
    if s.At(i, Ind) != 0 { HeldAt(s, i, Ind); }
  }

  lemma MarkOwned(s: State, b: nat, on: bool)
    requires s.Owned() && b < s.sb.size
    ensures s.Mark(b, on).Owned()
    ensures forall i: nat, t: Slot | i < |s.nodes| && t.Ok() :: AtSame(s, s.Mark(b, on), i, t)
    ensures forall i: nat, x: nat | i < |s.nodes| && x < MAXFILE * BSIZE :: ByteSame(s, s.Mark(b, on), i, x)
  {
    hide State.At, WithBit;
    var s' := s.Mark(b, on);
    forall i: nat, t: Slot | i < |s.nodes| && t.Ok() ensures AtSame(s, s', i, t) && s'.SlotOk(i, t) {
      MarkAt(s, b, on, i, t);
      assert s.SlotOk(i, t);
    }
    forall c | c in s'.owner ensures s'.OwnOk(c) {
      assert s.OwnOk(c);
      MarkAt(s, b, on, s.owner[c].inum, s.owner[c].slot);
    }
    forall i: nat, x: nat | i < |s.nodes| && x < MAXFILE * BSIZE ensures ByteSame(s, s', i, x) {
      MarkByte(s, b, on, i, x);
    }
  }

  lemma MarkByte(s: State, b: nat, on: bool, i: nat, x: nat)
    requires s.Owned() && b < s.sb.size && s.Mark(b, on).Owned() && i < |s.nodes| && x < MAXFILE * BSIZE
    ensures ByteSame(s, s.Mark(b, on), i, x)
  {
    hide State.At;
    assert s.sb.BBlock(b) < s.sb.meta;
    var t := SlotOf(x / BSIZE);
    MarkAt(s, b, on, i, t);
    if s.At(i, t) != 0 { HeldAt(s, i, t); }
  }

  /** Writing a data block changes that part of that file. */
  lemma StoreAt(s: State, b: nat, data: Block, i: nat, t: Slot)
    requires s.Owned() && b in s.owner && b < |s.disk| && s.owner[b].slot != Ind && i < |s.nodes| && t.Ok()
    ensures AtSame(s, s.Store(b, data), i, t)
  {
    if s.At(i, Ind) != 0 { HeldAt(s, i, Ind); }
  }

  lemma StoreOwned(s: State, b: nat, data: Block)
    requires s.Owned() && b in s.owner && b < |s.disk| && s.owner[b].slot != Ind
    ensures s.Store(b, data).Owned()
    ensures forall i: nat, t: Slot | i < |s.nodes| && t.Ok() :: AtSame(s, s.Store(b, data), i, t)
  {
    hide State.At;
    var s' := s.Store(b, data);
    forall i: nat, t: Slot | i < |s.nodes| && t.Ok() ensures AtSame(s, s', i, t) && s'.SlotOk(i, t) {
      StoreAt(s, b, data, i, t);
      assert s.SlotOk(i, t);
    }
    forall c | c in s'.owner ensures s'.OwnOk(c) {
      assert s.OwnOk(c);
      StoreAt(s, b, data, s.owner[c].inum, s.owner[c].slot);
    }
  }

  lemma StoreByte(s: State, b: nat, data: Block, i: nat, x: nat)
    requires s.Owned() && b in s.owner && b < |s.disk| && s.owner[b].slot != Ind && s.Store(b, data).Owned()
    requires i < |s.nodes| && x < MAXFILE * BSIZE
    ensures s.Store(b, data).ByteOf(i, x) ==
              if s.owner[b] == Own(i, SlotOf(x / BSIZE)) then data[x % BSIZE] else s.ByteOf(i, x)
  {
    hide State.At;
    var t := SlotOf(x / BSIZE);
    StoreAt(s, b, data, i, t);
    assert s.OwnOk(b);
    if s.At(i, t) != 0 { HeldAt(s, i, t); }
  }

  /** Everything about an inode but its block numbers. */
  ghost predicate SameHead(s: State, s': State, i: nat)
    requires i < |s.nodes| && i < |s'.nodes|
  {
    s'.nodes[i].(addrs := s.nodes[i].addrs) == s.nodes[i]
  }

  /** `s'` holds the same files as `s`, perhaps in more blocks. */
  ghost predicate SameFiles(s: State, s': State) {
    && s.Owned() && s'.Owned() && s'.sb == s.sb
    && (forall i: nat | i < |s.nodes| :: SameHead(s, s', i))
    && (forall i: nat, t: Slot | i < |s.nodes| && t.Ok() && s.At(i, t) != 0 :: AtSame(s, s', i, t))
    && (forall i: nat, x: nat | i < |s.nodes| && x < MAXFILE * BSIZE :: ByteSame(s, s', i, x))
  }

  lemma InvOwned(s: State)
    requires s.Inv()
    ensures s.Owned() && s.Shape()
  {
  }

  lemma SameFilesRefl(s: State)
    requires s.Owned()
    ensures SameFiles(s, s)
  {
    hide State.Owned;
    forall i: nat | i < |s.nodes| ensures SameHead(s, s, i) {}
    forall i: nat, t: Slot | i < |s.nodes| && t.Ok() ensures AtSame(s, s, i, t) {}
    forall i: nat, x: nat | i < |s.nodes| && x < MAXFILE * BSIZE ensures ByteSame(s, s, i, x) {}
  }

  lemma SameFilesTrans(s: State, s1: State, s2: State)
    requires SameFiles(s, s1) && SameFiles(s1, s2)
    ensures SameFiles(s, s2)
  {
    hide State.At, State.ByteOf;
    assert |s.nodes| == |s1.nodes| == |s2.nodes|;
    forall i: nat | i < |s.nodes| ensures SameHead(s, s2, i) { assert SameHead(s, s1, i) && SameHead(s1, s2, i); }
    forall i: nat, t: Slot | i < |s.nodes| && t.Ok() && s.At(i, t) != 0 ensures AtSame(s, s2, i, t) {
      assert AtSame(s, s1, i, t) && AtSame(s1, s2, i, t);
    }
    forall i: nat, x: nat | i < |s.nodes| && x < MAXFILE * BSIZE ensures ByteSame(s, s2, i, x) {
      assert ByteSame(s, s1, i, x) && ByteSame(s1, s2, i, x);
    }
  }

  lemma MarkMay(s: State, inum: nat, slot: Slot, b: nat, on: bool)
    requires s.MayPlant(inum, slot, b)
    ensures s.Mark(b, on).MayPlant(inum, slot, b)
  {
    MarkOwned(s, b, on);
    hide State.At, State.Owned, WithBit;
    assert AtSame(s, s.Mark(b, on), inum, slot) && AtSame(s, s.Mark(b, on), inum, Ind);
  }

  /** balloc and the storing of its result: the block's bit is set, it is zeroed and put into a slot. */
  ghost function Hang(s: State, inum: nat, slot: Slot, b: nat): State
    requires s.MayPlant(inum, slot, b)
  {
    MarkMay(s, inum, slot, b, true);
    s.Mark(b, true).Plant(inum, slot, b)
  }

  lemma PlantLow(s: State, inum: nat, slot: Slot, b: nat, c: nat)
    requires s.MayPlant(inum, slot, b) && c < s.sb.meta
    ensures s.Plant(inum, slot, b).disk[c] == s.disk[c]
  {
    if s.At(inum, Ind) != 0 { HeldAt(s, inum, Ind); }
  }

  lemma HangFiles(s: State, inum: nat, slot: Slot, b: nat)
    requires s.MayPlant(inum, slot, b)
    ensures SameFiles(s, Hang(s, inum, slot, b)) && Hang(s, inum, slot, b).At(inum, slot) == b
    ensures forall i: nat, t: Slot | i < |s.nodes| && t.Ok() && !(i == inum && t == slot) ::
            AtSame(s, Hang(s, inum, slot, b), i, t)
  {
    hide State.At, State.ByteOf, WithBit, Word, SetWord, State.Owned;
    MarkMay(s, inum, slot, b, true);
    MarkOwned(s, b, true);
    var s1 := s.Mark(b, true);
    PlantOwned(s1, inum, slot, b);
    var s' := Hang(s, inum, slot, b);
    forall i: nat | i < |s.nodes| ensures SameHead(s, s', i) {}
    forall i: nat, t: Slot | i < |s.nodes| && t.Ok() && !(i == inum && t == slot) ensures AtSame(s, s', i, t) {
      assert AtSame(s, s1, i, t) && AtSame(s1, s', i, t);
    }
    forall i: nat, x: nat | i < |s.nodes| && x < MAXFILE * BSIZE ensures ByteSame(s, s', i, x) {
      assert ByteSame(s, s1, i, x);
      PlantByte(s1, inum, slot, b, i, x);
    }
  }

  lemma HangBit(s: State, inum: nat, slot: Slot, b: nat, c: nat)
    requires s.MayPlant(inum, slot, b) && c < s.sb.size && s.BitOk(c) && Hang(s, inum, slot, b).Shape()
    ensures Hang(s, inum, slot, b).BitOk(c)
  {
    hide State.At, State.Owned, WithBit, State.Plant;
    MarkMay(s, inum, slot, b, true);
    assert s.sb.BBlock(c) < s.sb.meta && s.sb.BBlock(b) < s.sb.meta;
    PlantLow(s.Mark(b, true), inum, slot, b, s.sb.BBlock(c));
    WithBitAt(s.sb, s.disk, b, true, c);
    PlantOwner(s.Mark(b, true), inum, slot, b);
  }

  lemma PlantOwner(s: State, inum: nat, slot: Slot, b: nat)
    requires s.MayPlant(inum, slot, b)
    ensures s.Plant(inum, slot, b).owner == s.owner[b := Own(inum, slot)] && s.Plant(inum, slot, b).sb == s.sb
  {
  }

  /** The invariant survives: in particular a block that balloc hands out was held by nobody. */
  lemma HangInv(s: State, inum: nat, slot: Slot, b: nat)
    requires s.Inv() && s.MayPlant(inum, slot, b) && s.nodes[inum].typ != 0
    ensures Hang(s, inum, slot, b).Inv() && SameFiles(s, Hang(s, inum, slot, b))
    ensures Hang(s, inum, slot, b).At(inum, slot) == b
  {
    hide State.At, State.ByteOf, State.Plant, WithBit;
    HangFiles(s, inum, slot, b);
    var s' := Hang(s, inum, slot, b);
    forall c: nat | c < s.sb.size ensures s'.BitOk(c) { assert s.BitOk(c); HangBit(s, inum, slot, b, c); }
    forall i: nat | i < |s.nodes| ensures s'.NodeOk(i) { assert s.NodeOk(i); HangNode(s, s', inum, slot, i); }
  }

  lemma HangNode(s: State, s': State, inum: nat, slot: Slot, i: nat)
    requires SameFiles(s, s') && inum < |s.nodes| && slot.Ok() && s.nodes[inum].typ != 0 && i < |s.nodes| && s.NodeOk(i)
    requires forall j: nat, t: Slot | j < |s.nodes| && t.Ok() && !(j == inum && t == slot) :: AtSame(s, s', j, t)
    ensures s'.NodeOk(i)
  {
    hide State.At, State.ByteOf;
    assert SameHead(s, s', i);
    forall bn: nat | bn * BSIZE < s'.nodes[i].size ensures s'.Mapped(i, bn) {
      assert s.Mapped(i, bn);
      assert AtSame(s, s', i, SlotOf(bn));
    }
    if s'.nodes[i].typ == 0 {
      forall t: Slot | t.Ok() ensures s'.At(i, t) == 0 { assert AtSame(s, s', i, t); }
    }
  }

  /** The contents of a file. */
  ghost function Contents(s: State, inum: nat): (c: seq<nat>)
    requires s.Inv() && inum < |s.nodes|
    ensures |c| == s.nodes[inum].size <= MAXFILE * BSIZE && forall x: nat | x < |c| :: c[x] == s.ByteOf(inum, x)
  {
    assert s.NodeOk(inum);
    seq(s.nodes[inum].size, x requires 0 <= x < s.nodes[inum].size => s.ByteOf(inum, x))
  }

  lemma StoreInv(s: State, b: nat, data: Block)
    requires s.Inv() && b in s.owner && b < |s.disk| && s.owner[b].slot != Ind
    ensures s.Store(b, data).Inv()
    ensures forall i: nat, t: Slot | i < |s.nodes| && t.Ok() :: AtSame(s, s.Store(b, data), i, t)
  {
    hide State.At;
    StoreOwned(s, b, data);
    var s' := s.Store(b, data);
    assert s.OwnOk(b);
    forall c: nat | c < s.sb.size ensures s'.BitOk(c) { assert s.BitOk(c) && s.sb.BBlock(c) < s.sb.meta; }
    forall i: nat | i < |s.nodes| ensures s'.NodeOk(i) { assert s.NodeOk(i); NodeKept(s, s', i); }
  }

  /** `s` with another size for file `inum`. */
  ghost function Resize(s: State, inum: nat, size: nat): State
    requires inum < |s.nodes|
  {
    s.(nodes := s.nodes[inum := s.nodes[inum].(size := size)])
  }

  lemma ResizeInv(s: State, inum: nat, size: nat)
    requires s.Inv() && inum < |s.nodes| && size <= MAXFILE * BSIZE
    requires forall bn: nat | bn * BSIZE < size :: s.Mapped(inum, bn)
    ensures Resize(s, inum, size).Inv()
    ensures forall i: nat, t: Slot | i < |s.nodes| && t.Ok() :: AtSame(s, Resize(s, inum, size), i, t)
    ensures forall i: nat, x: nat | i < |s.nodes| && x < MAXFILE * BSIZE :: ByteSame(s, Resize(s, inum, size), i, x)
  {
    var s' := Resize(s, inum, size);
    forall i: nat, t: Slot | i < |s.nodes| && t.Ok() ensures AtSame(s, s', i, t) && s'.SlotOk(i, t) {
      assert s.SlotOk(i, t);
    }
    hide State.At;
    forall c | c in s'.owner ensures s'.OwnOk(c) {
      assert s.OwnOk(c) && AtSame(s, s', s.owner[c].inum, s.owner[c].slot);
    }
    forall c: nat | c < s.sb.size ensures s'.BitOk(c) { assert s.BitOk(c); }
    forall i: nat, x: nat | i < |s.nodes| && x < MAXFILE * BSIZE ensures ByteSame(s, s', i, x) {
      assert AtSame(s, s', i, SlotOf(x / BSIZE));
    }
    forall i: nat | i < |s.nodes| ensures s'.NodeOk(i) {
      assert s.NodeOk(i);
      NodeKept(s, s', i);
    }
  }

  lemma NodeKept(s: State, s': State, i: nat)
    requires s.Shape() && s'.Shape() && |s'.nodes| == |s.nodes| && i < |s.nodes| && s.NodeOk(i)
    requires s'.nodes[i].typ == s.nodes[i].typ
    requires s'.nodes[i].size <= MAXFILE * BSIZE && forall bn: nat | bn * BSIZE < s'.nodes[i].size :: s.Mapped(i, bn)
    requires forall j: nat, t: Slot | j < |s.nodes| && t.Ok() :: AtSame(s, s', j, t)
    ensures s'.NodeOk(i)
  {
    hide State.At;
    forall bn: nat | bn * BSIZE < s'.nodes[i].size ensures s'.Mapped(i, bn) {
      assert s.Mapped(i, bn) && AtSame(s, s', i, SlotOf(bn));
    }
    if s'.nodes[i].typ == 0 {
      forall t: Slot | t.Ok() ensures s'.At(i, t) == 0 { assert AtSame(s, s', i, t); }
    }
  }
}
