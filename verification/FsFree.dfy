/** Truncating and freeing inodes, allocating them, and writing files in chunks (kernel/fs.c,
    kernel/file.c). */
module FsFree {
  import opened FsState
  import opened Fs
  import LogSpec

  /** The blocks inode `inum` holds. */
  ghost function BlocksOf(s: State, inum: nat): set<nat> {
    set b | b in s.owner && s.owner[b].inum == inum
  }

  ghost predicate ClearedAt(s: State, disk: seq<Block>, f: set<nat>, b: nat)
    requires s.Shape() && |disk| == |s.disk| && b < s.sb.size
  {
    Used(s.sb, disk, b) <==> Used(s.sb, s.disk, b) && b !in f
  }

  /** `disk` is that of `s` with the bits of the blocks `f` cleared. */
  ghost predicate Cleared(s: State, disk: seq<Block>, f: set<nat>) {
    && s.Shape() && |disk| == |s.disk|
    && (forall b: nat | b < s.sb.size :: ClearedAt(s, disk, f, b))
    && (forall c: nat | s.sb.meta <= c < s.sb.size :: disk[c] == s.disk[c])
  }

  lemma ClearedNone(s: State)
    requires s.Shape()
    ensures Cleared(s, s.disk, {})
  {
    forall b: nat | b < s.sb.size ensures ClearedAt(s, s.disk, {}, b) {}
  }

  lemma ClearedStep(s: State, disk: seq<Block>, f: set<nat>, b: nat)
    requires Cleared(s, disk, f) && b < s.sb.size
    ensures s.sb.BBlock(b) < s.sb.meta && Cleared(s, WithBit(s.sb, disk, b, false), f + {b})
  {
    assert s.sb.BBlock(b) < s.sb.meta;
    hide BitAt;
    var disk', f' := WithBit(s.sb, disk, b, false), f + {b};
    forall c: nat | c < s.sb.size ensures ClearedAt(s, disk', f', c) {
      assert ClearedAt(s, disk, f, c) && s.sb.BBlock(c) < s.sb.meta;
      WithBitAt(s.sb, disk, b, false, c);
    }
  }

  /** A held block that is not freed yet has its bit set: the "freeing free block" panic is unreachable. */
  lemma StillUsed(s: State, disk: seq<Block>, f: set<nat>, b: nat)
    requires s.Inv() && Cleared(s, disk, f) && b in s.owner && b !in f
    ensures b < s.sb.size && Used(s.sb, disk, b)
  {
    assert s.OwnOk(b) && s.BitOk(b) && ClearedAt(s, disk, f, b);
  }

  /** `s` after inode `inum` is emptied on `disk`. */
  ghost function Emptied(s: State, inum: nat, disk: seq<Block>): State
    requires inum < |s.nodes|
  {
    State(s.sb, disk, s.nodes[inum := s.nodes[inum].(size := 0, addrs := seq(NDIRECT + 1, _ => 0))],
          s.owner - BlocksOf(s, inum))
  }

  lemma EmptiedAt(s: State, inum: nat, disk: seq<Block>, i: nat, t: Slot)
    requires s.Inv() && inum < |s.nodes| && Cleared(s, disk, BlocksOf(s, inum)) && i < |s.nodes| && t.Ok()
    ensures Emptied(s, inum, disk).At(i, t) == if i == inum then 0 else s.At(i, t)
  {
    if i != inum && s.At(i, Ind) != 0 { HeldAt(s, i, Ind); }
  }

  lemma EmptiedOwned(s: State, inum: nat, disk: seq<Block>)
    requires s.Inv() && inum < |s.nodes| && Cleared(s, disk, BlocksOf(s, inum))
    ensures Emptied(s, inum, disk).Owned()
  {
    hide State.At, State.BitOk, State.NodeOk;
    var s' := Emptied(s, inum, disk);
    forall i: nat, t: Slot | i < |s.nodes| && t.Ok() ensures s'.SlotOk(i, t) {
      EmptiedAt(s, inum, disk, i, t);
      assert s.SlotOk(i, t);
    }
    forall b | b in s'.owner ensures s'.OwnOk(b) {
      assert s.OwnOk(b);
      EmptiedAt(s, inum, disk, s.owner[b].inum, s.owner[b].slot);
    }
  }

  lemma EmptiedByte(s: State, inum: nat, disk: seq<Block>, i: nat, x: nat)
    requires s.Inv() && inum < |s.nodes| && Cleared(s, disk, BlocksOf(s, inum)) && Emptied(s, inum, disk).Owned()
    requires i < |s.nodes| && i != inum && x < MAXFILE * BSIZE
    ensures ByteSame(s, Emptied(s, inum, disk), i, x)
  {
    hide State.At, State.BitOk, State.NodeOk;
    var t := SlotOf(x / BSIZE);
    EmptiedAt(s, inum, disk, i, t);
    if s.At(i, t) != 0 { HeldAt(s, i, t); }
  }

  /** Emptying an inode frees exactly its blocks and leaves every other file alone. */
  lemma EmptiedInv(s: State, inum: nat, disk: seq<Block>)
    requires s.Inv() && inum < |s.nodes| && Cleared(s, disk, BlocksOf(s, inum))
    ensures Emptied(s, inum, disk).Inv()
    ensures forall i: nat | i < |s.nodes| && i != inum :: Contents(Emptied(s, inum, disk), i) == Contents(s, i)
  {
    hide State.At, State.ByteOf;
    EmptiedOwned(s, inum, disk);
    var s' := Emptied(s, inum, disk);
    forall b: nat | b < s.sb.size ensures s'.BitOk(b) {
      assert s.BitOk(b) && ClearedAt(s, disk, BlocksOf(s, inum), b);
      assert b in s.owner ==> s.OwnOk(b);
    }
    forall i: nat | i < |s.nodes| ensures s'.NodeOk(i) { EmptiedNode(s, inum, disk, i); }
    forall i: nat | i < |s.nodes| && i != inum ensures Contents(s', i) == Contents(s, i) {
      forall x: nat | x < |Contents(s, i)| ensures Contents(s', i)[x] == Contents(s, i)[x] {
        EmptiedByte(s, inum, disk, i, x);
      }
    }
  }

  lemma EmptiedNode(s: State, inum: nat, disk: seq<Block>, i: nat)
    requires s.Inv() && inum < |s.nodes| && Cleared(s, disk, BlocksOf(s, inum)) && i < |s.nodes|
    requires Emptied(s, inum, disk).Shape()
    ensures Emptied(s, inum, disk).NodeOk(i)
  {
    hide State.At, State.BitOk, State.Owned;
    var s' := Emptied(s, inum, disk);
    assert s.NodeOk(i);
    forall bn: nat | bn * BSIZE < s'.nodes[i].size ensures s'.Mapped(i, bn) {
      assert s.Mapped(i, bn);
      EmptiedAt(s, inum, disk, i, SlotOf(bn));
    }
    forall t: Slot | t.Ok() && s'.nodes[i].typ == 0 ensures s'.At(i, t) == 0 { EmptiedAt(s, inum, disk, i, t); }
  }

  /** itrunc has passed this slot: the first `i` direct ones, the first `j` entries, the indirect one. */
  ghost predicate Passed(t: Slot, i: nat, j: nat, ind: bool) {
    match t case Direct(d) => d < i case Entry(k) => k < j case Ind => ind
  }

  ghost function PassedBlocks(s: State, inum: nat, i: nat, j: nat, ind: bool): set<nat> {
    set b | b in s.owner && s.owner[b].inum == inum && Passed(s.owner[b].slot, i, j, ind)
  }

  /** Passing one more slot. */
  lemma PassOne(s: State, inum: nat, t: Slot, f: set<nat>, f': set<nat>)
    requires s.Owned() && inum < |s.nodes| && t.Ok()
    requires forall b :: b in f' <==> b in f || (b in s.owner && s.owner[b] == Own(inum, t))
    ensures f' == if s.At(inum, t) == 0 then f else f + {s.At(inum, t)}
  {
    hide State.At;
    assert s.SlotOk(inum, t);
    forall b | b in s.owner && s.owner[b] == Own(inum, t) ensures b == s.At(inum, t) != 0 { assert s.OwnOk(b); }
  }

  lemma PassDirect(s: State, inum: nat, i: nat)
    requires s.Owned() && inum < |s.nodes| && i < NDIRECT
    ensures var f := PassedBlocks(s, inum, i, 0, false);
            PassedBlocks(s, inum, i + 1, 0, false) ==
              if s.At(inum, Direct(i)) == 0 then f else f + {s.At(inum, Direct(i))}
    ensures s.At(inum, Direct(i)) !in PassedBlocks(s, inum, i, 0, false)
  {
    hide State.At;
    assert s.SlotOk(inum, Direct(i));
    forall b | b in PassedBlocks(s, inum, i, 0, false) ensures s.OwnOk(b) {}
    PassOne(s, inum, Direct(i), PassedBlocks(s, inum, i, 0, false), PassedBlocks(s, inum, i + 1, 0, false));
  }

  lemma PassEntry(s: State, inum: nat, j: nat)
    requires s.Owned() && inum < |s.nodes| && j < NINDIRECT
    ensures var f := PassedBlocks(s, inum, NDIRECT, j, false);
            PassedBlocks(s, inum, NDIRECT, j + 1, false) ==
              if s.At(inum, Entry(j)) == 0 then f else f + {s.At(inum, Entry(j))}
    ensures s.At(inum, Entry(j)) !in PassedBlocks(s, inum, NDIRECT, j, false)
  {
    hide State.At;
    assert s.SlotOk(inum, Entry(j));
    forall b | b in PassedBlocks(s, inum, NDIRECT, j, false) ensures s.OwnOk(b) {}
    PassOne(s, inum, Entry(j), PassedBlocks(s, inum, NDIRECT, j, false), PassedBlocks(s, inum, NDIRECT, j + 1, false));
  }

  /** After the indirect block, all of the inode's blocks are passed. */
  lemma PassInd(s: State, inum: nat)
    requires s.Owned() && inum < |s.nodes|
    ensures s.At(inum, Ind) !in PassedBlocks(s, inum, NDIRECT, NINDIRECT, false)
    ensures s.At(inum, Ind) != 0 ==>
              BlocksOf(s, inum) == PassedBlocks(s, inum, NDIRECT, NINDIRECT, false) + {s.At(inum, Ind)}
    ensures s.At(inum, Ind) == 0 ==> BlocksOf(s, inum) == PassedBlocks(s, inum, NDIRECT, 0, false)
  {
    assert s.SlotOk(inum, Ind);
    forall b | b in BlocksOf(s, inum) ensures s.OwnOk(b) {}
  }

  lemma PassNone(s: State, inum: nat)
    ensures PassedBlocks(s, inum, 0, 0, false) == {}
  {
  }

  /** itrunc (kernel/fs.c:409-437) frees exactly the blocks of the inode. The panic of bfree is never
      reached, and every other file keeps its contents. */
  method Itrunc(fs: FileSystem, ip: Inode)
    requires ip.inum < |fs.dinodes| && fs.V(ip).Inv()
    modifies fs`disk, fs`logged, fs`owner, fs`dinodes, ip`addrs, ip`size
    ensures |fs.dinodes| == old(|fs.dinodes|) && fs.S() == fs.V(ip) == Emptied(old(fs.V(ip)), ip.inum, fs.disk)
    ensures Cleared(old(fs.V(ip)), fs.disk, BlocksOf(old(fs.V(ip)), ip.inum)) && fs.S().Inv()
    ensures fs.dinodes == old(fs.dinodes)[ip.inum := old(ip.D()).(size := 0, addrs := NoAddrs())]
    ensures ip.size == 0 && ip.addrs == NoAddrs() && fs.owner == old(fs.owner - BlocksOf(fs.V(ip), ip.inum))
    ensures forall i: nat | i < |fs.dinodes| && i != ip.inum :: Contents(fs.S(), i) == Contents(old(fs.V(ip)), i)
    ensures Changes(old(fs.S()), fs.S(), fs.logged) && Placed(fs.sb, ip.inum, old(fs.logged), fs.logged)
    ensures old(fs.logged) <= fs.logged
  {
    hide State.BitOk, State.NodeOk, State.At, Cleared, PassedBlocks, Emptied, AllLogged, Placed, Contents;
    ghost var s := fs.V(ip);
    ghost var s0, l0 := fs.S(), fs.logged;
    ghost var inum := ip.inum;
    ClearedNone(s);
    PassNone(s, inum);
    TruncDirect(fs, ip, s);
    PassInd(s, inum);
    AtInd(s, inum);
    if ip.addrs[NDIRECT] != 0 {
      TruncEntries(fs, ip, s, s0.disk, l0);
      StillUsed(s, fs.disk, PassedBlocks(s, inum, NDIRECT, NINDIRECT, false), ip.addrs[NDIRECT]);
      ClearedStep(s, fs.disk, PassedBlocks(s, inum, NDIRECT, NINDIRECT, false), ip.addrs[NDIRECT]);
      ghost var d, l := fs.disk, fs.logged;
      fs.Bfree(ip.addrs[NDIRECT]);
      FreedLogged(fs.sb, inum, s0.disk, d, l0, l, ip.addrs[NDIRECT]);
      ip.addrs := ip.addrs[NDIRECT := 0];
    }
    ip.size := 0;
    fs.owner := fs.owner - BlocksOf(s, inum);
    PlacedNone(fs.sb, inum, fs.logged);
    PlacedTrans(fs.sb, inum, l0, fs.logged, fs.logged);
    AllLoggedMore(s0.disk, fs.disk, fs.logged, fs.logged + {fs.sb.IBlock(inum)});
    fs.Iupdate(ip);
    EmptiedInv(s, inum, fs.disk);
    EmptiedIs(s, inum, fs.disk, ip.addrs);
    assert ip.addrs == NoAddrs();
    assert fs.S().nodes == s.nodes[inum := ip.D()] && s.nodes == s0.nodes[inum := s.nodes[inum]];
    ChangesOne(s0, fs.S(), inum, fs.logged);
  }

  /** One more block freed: its bitmap block is logged. */
  lemma FreedLogged(sb: Super, inum: nat, d0: seq<Block>, d: seq<Block>, l0: set<nat>, l: set<nat>, b: nat)
    requires sb.Ok() && |d| == sb.size && b < sb.size && AllLogged(d0, d, l) && Placed(sb, inum, l0, l) && l0 <= l
    ensures sb.BBlock(b) < |d| && AllLogged(d0, WithBit(sb, d, b, false), l + {sb.BBlock(b)})
    ensures Placed(sb, inum, l0, l + {sb.BBlock(b)})
  {
    hide AllLogged;
    assert sb.bmapstart <= sb.BBlock(b) < sb.meta;
    var k := sb.BBlock(b);
    AllLoggedOne(d, k, BitTo(d[k], b, false), l + {k});
    AllLoggedTrans(d0, d, WithBit(sb, d, b, false), l, l + {k});
  }

  function NoAddrs(): Addrs { seq(NDIRECT + 1, _ => 0) }

  lemma EmptiedIs(s: State, inum: nat, disk: seq<Block>, addrs: Addrs)
    requires inum < |s.nodes| && forall j: nat | j <= NDIRECT :: addrs[j] == 0
    ensures Emptied(s, inum, disk) == State(s.sb, disk, s.nodes[inum := s.nodes[inum].(size := 0, addrs := addrs)],
            s.owner - BlocksOf(s, inum))
  {
    assert addrs == seq(NDIRECT + 1, _ => 0);
  }

  /** The first loop of itrunc (kernel/fs.c:416-421). */
  method TruncDirect(fs: FileSystem, ip: Inode, ghost s: State)
    requires ip.inum < |fs.dinodes| && s == fs.V(ip) && s.Inv()
    modifies fs`disk, fs`logged, ip`addrs
    ensures |fs.disk| == fs.sb.size && Cleared(s, fs.disk, PassedBlocks(s, ip.inum, NDIRECT, 0, false))
    ensures (forall j: nat | j < NDIRECT :: ip.addrs[j] == 0) && ip.addrs[NDIRECT] == old(ip.addrs[NDIRECT])
    ensures AllLogged(old(fs.disk), fs.disk, fs.logged) && Placed(fs.sb, ip.inum, old(fs.logged), fs.logged)
    ensures old(fs.logged) <= fs.logged
  {
    hide State.BitOk, State.NodeOk, State.At, State.SlotOk, State.OwnOk, Cleared, PassedBlocks, AllLogged, Placed;
    ghost var inum := ip.inum;
    ghost var d0, l0 := fs.disk, fs.logged;
    AllLoggedRefl(d0, l0);
    PlacedNone(fs.sb, inum, l0);
    ClearedNone(s);
    PassNone(s, inum);
    var i := 0;
    while i < NDIRECT
      invariant 0 <= i <= NDIRECT && |fs.disk| == fs.sb.size && Cleared(s, fs.disk, PassedBlocks(s, inum, i, 0, false))
      invariant forall j: nat | j <= NDIRECT :: ip.addrs[j] == if j < i then 0 else s.nodes[inum].addrs[j]
      invariant AllLogged(d0, fs.disk, fs.logged) && Placed(fs.sb, inum, l0, fs.logged) && l0 <= fs.logged
    {
      PassDirect(s, inum, i);
      AtDirect(s, inum, i);
      if ip.addrs[i] != 0 {
        HeldAt(s, inum, Direct(i));
        StillUsed(s, fs.disk, PassedBlocks(s, inum, i, 0, false), ip.addrs[i]);
        ClearedStep(s, fs.disk, PassedBlocks(s, inum, i, 0, false), ip.addrs[i]);
        FreedLogged(fs.sb, inum, d0, fs.disk, l0, fs.logged, ip.addrs[i]);
        fs.Bfree(ip.addrs[i]);
        ip.addrs := ip.addrs[i := 0];
      }
      i := i + 1;
    }
  }

  lemma AtDirect(s: State, inum: nat, i: nat)
    requires inum < |s.nodes| && i < NDIRECT
    ensures s.At(inum, Direct(i)) == s.nodes[inum].addrs[i]
  {
  }

  lemma AtEntry(s: State, disk: seq<Block>, f: set<nat>, inum: nat, j: nat)
    requires s.Owned() && inum < |s.nodes| && j < NINDIRECT && s.nodes[inum].addrs[NDIRECT] != 0 && Cleared(s, disk, f)
    ensures s.nodes[inum].addrs[NDIRECT] < |disk| && s.At(inum, Entry(j)) == Word(disk[s.nodes[inum].addrs[NDIRECT]], j)
  {
    HeldAt(s, inum, Ind);
  }

  /** The second loop of itrunc (kernel/fs.c:426-429). */
  method TruncEntries(fs: FileSystem, ip: Inode, ghost s: State, ghost d0: seq<Block>, ghost l0: set<nat>)
    requires s.Inv() && ip.inum < |s.nodes| && fs.sb == s.sb && |fs.disk| == fs.sb.size
    requires ip.addrs[NDIRECT] == s.nodes[ip.inum].addrs[NDIRECT] != 0
    requires Cleared(s, fs.disk, PassedBlocks(s, ip.inum, NDIRECT, 0, false))
    requires AllLogged(d0, fs.disk, fs.logged) && Placed(fs.sb, ip.inum, l0, fs.logged) && l0 <= fs.logged
    modifies fs`disk, fs`logged
    ensures |fs.disk| == fs.sb.size && Cleared(s, fs.disk, PassedBlocks(s, ip.inum, NDIRECT, NINDIRECT, false))
    ensures AllLogged(d0, fs.disk, fs.logged) && Placed(fs.sb, ip.inum, l0, fs.logged) && l0 <= fs.logged
  {
    hide State.BitOk, State.NodeOk, State.At, State.SlotOk, State.OwnOk, Cleared, PassedBlocks, Word, AllLogged, Placed;
    ghost var inum := ip.inum;
    var j := 0;
    while j < NINDIRECT
      invariant 0 <= j <= NINDIRECT && |fs.disk| == fs.sb.size
      invariant Cleared(s, fs.disk, PassedBlocks(s, inum, NDIRECT, j, false))
      invariant AllLogged(d0, fs.disk, fs.logged) && Placed(fs.sb, inum, l0, fs.logged) && l0 <= fs.logged
    {
      PassEntry(s, inum, j);
      AtEntry(s, fs.disk, PassedBlocks(s, inum, NDIRECT, j, false), inum, j);
      var a := Word(fs.disk[ip.addrs[NDIRECT]], j);
      if a != 0 {
        HeldAt(s, inum, Entry(j));
        StillUsed(s, fs.disk, PassedBlocks(s, inum, NDIRECT, j, false), a);
        ClearedStep(s, fs.disk, PassedBlocks(s, inum, NDIRECT, j, false), a);
        FreedLogged(fs.sb, inum, d0, fs.disk, l0, fs.logged, a);
        fs.Bfree(a);
      }
      j := j + 1;
    }
  }

  /** `s` with the type of inode `inum` set to 0. */
  ghost function Untyped(s: State, inum: nat): State
    requires inum < |s.nodes|
  {
    s.(nodes := s.nodes[inum := s.nodes[inum].(typ := 0)])
  }

  /** An inode that holds nothing can be marked free or be taken into use. */
  lemma RetypeInv(s: State, inum: nat, d: Dinode)
    requires s.Inv() && inum < |s.nodes| && d.size == 0 && (forall t: Slot | t.Ok() :: s.At(inum, t) == 0)
    requires forall j: nat | j <= NDIRECT :: d.addrs[j] == 0
    ensures s.(nodes := s.nodes[inum := d]).Inv()
    ensures forall i: nat | i < |s.nodes| && i != inum :: Contents(s.(nodes := s.nodes[inum := d]), i) == Contents(s, i)
  {
    var s' := s.(nodes := s.nodes[inum := d]);
    forall i: nat, t: Slot | i < |s.nodes| && t.Ok() ensures AtSame(s, s', i, t) && s'.SlotOk(i, t) {
      assert s.SlotOk(i, t);
      RetypeAt(s, inum, d, i, t);
    }
    hide State.At;
    forall b | b in s.owner ensures s'.OwnOk(b) {
      assert s.OwnOk(b) && AtSame(s, s', s.owner[b].inum, s.owner[b].slot);
    }
    forall b: nat | b < s.sb.size ensures s'.BitOk(b) { assert s.BitOk(b); }
    forall i: nat | i < |s.nodes| ensures s'.NodeOk(i) { assert s.NodeOk(i); RetypeNode(s, s', inum, i); }
    forall i: nat | i < |s.nodes| && i != inum ensures Contents(s', i) == Contents(s, i) {
      forall x: nat | x < |Contents(s, i)| ensures Contents(s', i)[x] == Contents(s, i)[x] {
        assert AtSame(s, s', i, SlotOf(x / BSIZE));
      }
    }
  }

  lemma RetypeAt(s: State, inum: nat, d: Dinode, i: nat, t: Slot)
    requires inum < |s.nodes| && i < |s.nodes| && t.Ok() && (forall u: Slot | u.Ok() :: s.At(inum, u) == 0)
    requires forall j: nat | j <= NDIRECT :: d.addrs[j] == 0
    ensures s.(nodes := s.nodes[inum := d]).At(i, t) == s.At(i, t)
  {
  }

  lemma RetypeNode(s: State, s': State, inum: nat, i: nat)
    requires s.Shape() && s'.Shape() && |s'.nodes| == |s.nodes| && inum < |s.nodes| && i < |s.nodes| && s.NodeOk(i)
    requires forall j: nat, t: Slot | j < |s.nodes| && t.Ok() :: AtSame(s, s', j, t)
    requires (i != inum ==> s'.nodes[i] == s.nodes[i])
    requires (i == inum ==> s'.nodes[i].size == 0 && forall t: Slot | t.Ok() :: s.At(inum, t) == 0)
    ensures s'.NodeOk(i)
  {
    hide State.At;
    forall bn: nat | bn * BSIZE < s'.nodes[i].size ensures s'.Mapped(i, bn) {
      assert s.Mapped(i, bn) && AtSame(s, s', i, SlotOf(bn));
    }
    forall t: Slot | t.Ok() && s'.nodes[i].typ == 0 ensures s'.At(i, t) == 0 { assert AtSame(s, s', i, t); }
  }

  lemma EmptiedFree(s: State, inum: nat, disk: seq<Block>)
    requires s.Inv() && inum < |s.nodes| && Cleared(s, disk, BlocksOf(s, inum))
    ensures forall t: Slot | t.Ok() :: Emptied(s, inum, disk).At(inum, t) == 0
    ensures var e := Emptied(s, inum, disk); e.nodes[inum].size == 0 && forall j: nat | j <= NDIRECT ::
            e.nodes[inum].addrs[j] == 0
  {
    forall t: Slot | t.Ok() ensures Emptied(s, inum, disk).At(inum, t) == 0 { EmptiedAt(s, inum, disk, inum, t); }
  }

  /** iput (kernel/fs.c:332-358): dropping the last reference to an inode without links frees it and
      exactly its blocks; otherwise only the reference goes. */
  method Iput(fs: FileSystem, ip: Inode)
    requires ip.inum < |fs.dinodes| && fs.V(ip) == fs.S() && fs.S().Inv() && ip.ref > 0
    modifies fs`disk, fs`logged, fs`owner, fs`dinodes, ip
    ensures ip.ref == old(ip.ref) - 1 && |fs.dinodes| == old(|fs.dinodes|) && fs.S().Inv() && fs.V(ip) == fs.S()
    ensures if old(ip.ref == 1 && ip.valid && ip.nlink == 0)
            then !ip.valid && Cleared(old(fs.S()), fs.disk, BlocksOf(old(fs.S()), ip.inum))
                 && fs.S() == Untyped(Emptied(old(fs.S()), ip.inum, fs.disk), ip.inum)
                 && fs.dinodes == old(fs.dinodes)[ip.inum := old(ip.D()).(typ := 0, size := 0, addrs := NoAddrs())]
                 && fs.owner == old(fs.owner - BlocksOf(fs.S(), ip.inum))
            else fs.S() == old(fs.S()) && ip.valid == old(ip.valid) && fs.logged == old(fs.logged)
    ensures forall i: nat | i < |fs.dinodes| && i != ip.inum :: Contents(fs.S(), i) == Contents(old(fs.S()), i)
    ensures Changes(old(fs.S()), fs.S(), fs.logged) && Placed(fs.sb, ip.inum, old(fs.logged), fs.logged)
  {
    hide State.Inv, Cleared, Emptied, State.At, AllLogged, Placed, Contents;
    ChangesNone(fs.S(), fs.logged);
    PlacedNone(fs.sb, ip.inum, fs.logged);
    if ip.ref == 1 && ip.valid && ip.nlink == 0 {
      ghost var s, l := fs.S(), fs.logged;
      Itrunc(fs, ip);
      ghost var s1 := fs.S();
      EmptiedFree(s, ip.inum, fs.disk);
      ip.typ := 0;
      RetypeInv(s1, ip.inum, ip.D());
      PlacedNone(fs.sb, ip.inum, fs.logged);
      PlacedTrans(fs.sb, ip.inum, l, fs.logged, fs.logged);
      AllLoggedMore(s.disk, fs.disk, fs.logged, fs.logged + {fs.sb.IBlock(ip.inum)});
      fs.Iupdate(ip);
      ChangesOne(s, fs.S(), ip.inum, fs.logged);
      ip.valid := false;
    }
    ip.ref := ip.ref - 1;
  }

  lemma ChangesNone(s: State, logged: set<nat>)
    ensures Changes(s, s, logged)
  {
    AllLoggedRefl(s.disk, logged);
    forall i: nat | i < |s.nodes| ensures NodeLogged(s, s, logged, i) {}
  }

  /** The inode of a deleted file can be had again: after the last iput of an inode without links, ialloc does
      not panic and finds it, or a free one before it (kernel/fs.c:201-210, 345-348). */
  method FreedAgain(fs: FileSystem, ip: Inode, typ: nat) returns (panic: bool, inum: nat)
    requires 1 <= ip.inum < |fs.dinodes| && fs.V(ip) == fs.S() && fs.S().Inv() && typ != 0
    requires ip.ref == 1 && ip.valid && ip.nlink == 0
    modifies fs`disk, fs`logged, fs`owner, fs`dinodes, ip
    ensures !panic && 1 <= inum <= ip.inum && inum < |fs.dinodes| && fs.dinodes[inum].typ == typ && fs.S().Inv()
  {
    hide State.Inv, Cleared, Emptied;
    Iput(fs, ip);
    assert fs.dinodes[ip.inum].typ == 0;
    panic, inum := Ialloc(fs, typ);
  }

  /** ialloc (kernel/fs.c:195-215): the first free inode from 1 on is marked used, with no blocks; it
      panics exactly when there is none. */
  method Ialloc(fs: FileSystem, typ: nat) returns (panic: bool, inum: nat)
    requires fs.S().Inv() && typ != 0
    modifies fs`dinodes, fs`logged
    ensures |fs.dinodes| == |old(fs.dinodes)|
    ensures panic <==> forall i: nat | 1 <= i < |old(fs.dinodes)| :: old(fs.dinodes)[i].typ != 0
    ensures panic ==> fs.dinodes == old(fs.dinodes)
    ensures !panic ==>
              1 <= inum < |fs.dinodes| && old(fs.dinodes)[inum].typ == 0 && forall i: nat | 1 <= i < inum ::
                  old(fs.dinodes)[i].typ != 0
    ensures !panic ==> fs.dinodes == old(fs.dinodes)[inum := Dinode(typ, 0, 0, 0, 0, seq(NDIRECT + 1, _ => 0))]
    ensures !panic ==> fs.S().Inv() && Contents(fs.S(), inum) == []
    ensures !panic ==> forall i: nat | i < |fs.dinodes| && i != inum :: Contents(fs.S(), i) == Contents(old(fs.S()), i)
    ensures fs.logged == if panic then old(fs.logged) else old(fs.logged) + {fs.sb.IBlock(inum)}
    ensures Changes(old(fs.S()), fs.S(), fs.logged)
  {
    hide State.Inv, State.At, AllLogged;
    ChangesNone(fs.S(), fs.logged);
    inum := 1;
    ghost var s := fs.S();
    InvSizes(s);
    while inum < fs.sb.ninodes
      invariant 1 <= inum && (inum <= fs.sb.ninodes || inum == 1) && fs.dinodes == old(fs.dinodes)
      invariant fs.logged == old(fs.logged)
      invariant forall i: nat | 1 <= i < inum && i < |fs.dinodes| :: fs.dinodes[i].typ != 0
    {
      if fs.dinodes[inum].typ == 0 {
        FreeInode(s, inum);
        RetypeInv(s, inum, Dinode(typ, 0, 0, 0, 0, seq(NDIRECT + 1, _ => 0)));
        fs.dinodes := fs.dinodes[inum := Dinode(typ, 0, 0, 0, 0, seq(NDIRECT + 1, _ => 0))];
        fs.logged := fs.logged + {fs.sb.IBlock(inum)};
        AllLoggedRefl(fs.disk, fs.logged);
        ChangesOne(s, fs.S(), inum, fs.logged);
        return false, inum;
      }
      inum := inum + 1;
    }
    return true, 0;
  }

  lemma InvSizes(s: State)
    requires s.Inv()
    ensures |s.nodes| == s.sb.ninodes
  {
  }

  lemma FreeInode(s: State, inum: nat)
    requires s.Inv() && inum < |s.nodes| && s.nodes[inum].typ == 0
    ensures forall t: Slot | t.Ok() :: s.At(inum, t) == 0
  {
    assert s.NodeOk(inum);
  }

  const CHUNK: nat := 3072   // ((MAXOPBLOCKS-1-1-2) / 2) * BSIZE

  function Min(a: nat, b: nat): nat { if a < b then a else b }

  ghost predicate Small(ops: seq<set<nat>>) {
    forall j: nat | j < |ops| :: |ops[j]| <= LogSpec.MAXOPBLOCKS
  }

  /** filewrite to an inode (kernel/file.c:148-175), of which the first `avail` bytes can be read. Each
      chunk is a transaction of its own; none logs more than MAXOPBLOCKS blocks. A complete write puts
      the data into the file and moves the offset behind it; otherwise the result is -1 and a part,
      `k` bytes, may have been written. */
  method Filewrite(fs: FileSystem, ip: Inode, foff: nat, data: seq<nat>, avail: nat)
    returns (panic: bool, ret: int, off: nat, ghost k: nat, ghost ops: seq<set<nat>>)
    requires ip.inum < |fs.dinodes| && fs.V(ip) == fs.S() && fs.S().Inv() && ip.typ != 0
    requires foff + |data| < WRAP && avail <= |data|
    modifies fs, ip
    ensures panic ==> fs.sb.Ok() && |fs.disk| == fs.sb.size && Full(fs.sb, fs.disk)
    ensures !panic ==> |fs.dinodes| == old(|fs.dinodes|) && fs.S().Inv() && fs.V(ip) == fs.S() && Small(ops)
    ensures !panic ==> (ret == |data| || ret == -1) && Written(old(fs.S()), fs.S(), ip.inum, foff, data, k)
    ensures !panic && ret == |data| > 0 ==> k == |data| && off == foff + |data| && foff <= old(ip.size)
    ensures !panic && ret == |data| > 0 ==> ip.size == if off > old(ip.size) then off else old(ip.size)
    ensures !panic ==>
              (ret == |data| <==>
               avail == |data| && (|data| == 0 || (foff <= old(ip.size) && foff + |data| <= MAXFILE * BSIZE)))
  {
    hide State.Inv, State.Owned, State.At, Torn, Written, Full, AllLogged, WriteBound, Small;
    ghost var s0 := fs.S();
    NoneSmall();
    WrittenNone(s0, ip.inum, foff, data);
    ContentsSize(s0, ip.inum);
    var n, i := |data|, 0;
    off, panic, ret, ops, k := foff, false, 0, [], 0;
    while i < n
      invariant 0 <= i <= n && i <= avail && off == foff + i && k == i && !panic && Small(ops)
      invariant ip.inum < |fs.dinodes| && |fs.dinodes| == old(|fs.dinodes|) && fs.V(ip) == fs.S() && fs.S().Inv()
      invariant ip.typ != 0
      invariant Written(s0, fs.S(), ip.inum, foff, data, i)
      invariant i == 0 ==> ip.size == old(ip.size)
      invariant i > 0 ==> foff <= old(ip.size) && ip.size == (if off > old(ip.size) then off else old(ip.size))
      invariant i > 0 ==> off <= MAXFILE * BSIZE
    {
      var n1 := if n - i > CHUNK then CHUNK else n - i;
      fs.logged := {};
      ghost var s1 := fs.S();
      var r;
      ghost var lost;
      panic, r, lost := fs.Writei(ip, off, data[i..i + n1], Min(avail - i, n1));
      if panic {
        return;
      }
      ChunkLogged(ops, fs.logged, off, n1);
      ops := ops + [fs.logged];
      if r > 0 {
        off := off + r;
      }
      if r != -1 {
        k := i + Min(avail - i, n1);
        WrittenTrans(s0, s1, fs.S(), ip.inum, foff, data, i, data[i..i + n1], Min(avail - i, n1));
        WrittenHead(s0, fs.S(), ip.inum, foff, data, k);
      }
      if r != n1 {
        return false, -1, off, k, ops;
      }
      i := i + r;
    }
    ret := n;
  }

  lemma NoneSmall()
    ensures Small([])
  {
  }

  lemma ChunkLogged(ops: seq<set<nat>>, logged: set<nat>, off: nat, n: nat)
    requires Small(ops) && n <= CHUNK && |logged - {}| <= WriteBound(off, n)
    ensures Small(ops + [logged])
  {
    ChunkBound(off, n);
    assert logged - {} == logged;
  }

  lemma WrittenHead(s: State, s': State, inum: nat, off: nat, data: seq<nat>, k: nat)
    requires Written(s, s', inum, off, data, k)
    ensures inum < |s.nodes| && inum < |s'.nodes| && s'.nodes[inum].typ == s.nodes[inum].typ
  {
    assert HeadKept(s, s', inum, inum);
  }
}
