/** Runs of the modelled code in which a promise fails; each stands beside the exact condition. */
module Failures {
  import opened FsState
  import opened Fs
  import opened Mkfs
  import P = PageState
  import opened Vm
  import opened UserVm
  import D = Directory
  import Paths

  /** A directory entry: an inode number and a name of 14 bytes. */
  function DirEntry(inum: nat, name: seq<nat>): (e: seq<nat>)
    requires |name| <= 14
    ensures |e| == 16
  {
    [inum % 256, inum / 256 % 256] + name + seq(14 - |name|, _ => 0)
  }

  /** What mkfs writes into a directory, the kernel reads. */
  lemma EntryAgrees(inum: nat, name: seq<nat>)
    requires |name| <= 14 && inum < 0x1_0000
    ensures D.Count(DirEntry(inum, name)) == 1 && D.Inum(DirEntry(inum, name), 0) == inum
    ensures Paths.Key(D.Name(DirEntry(inum, name), 0)) == Paths.Key(name)
  {
    var e := DirEntry(inum, name);
    assert inum == inum % 256 + 256 * (inum / 256 % 256);
    var field := D.Name(e, 0);
    assert |field| == 14 && forall i: nat | i < 14 :: field[i] == Paths.ByteAt(name, i);
    var word := Paths.CStr(field, 14);
    forall j: nat | j < |word| ensures word[j] != 0 { assert word[j] in word; }
    Paths.SameUpTo(field, name, 14, |word|);
  }

  /** The root directory `root` of the image has `k` entries. */
  ghost predicate Rooted(img: Image, root: nat, k: nat)
    reads img
  {
    && img.Valid() && root < img.freeinode && img.dinodes[root].typ != 0
    && img.dinodes[root].size == 16 * k && img.freeblock <= NMETA + 2 * k
  }

  /** One more entry (mkfs/mkfs.c:120, 125, 151). */
  method AddEntry(img: Image, root: nat, e: seq<nat>, ghost k: nat)
    requires Rooted(img, root, k) && |e| == 16 && k <= 110
    modifies img`freeblock, img`owner, img`disk, img`dinodes
    ensures Rooted(img, root, k + 1)
  {
    hide State.Inv, Contents, BlocksIn;
    assert (16 * k + 15) / BSIZE == 16 * k / BSIZE;
    OneBlock(16 * k);
    img.Iappend(root, e);
  }

  lemma OneBlock(off: nat)
    requires (off + 15) / BSIZE == off / BSIZE
    ensures BlocksIn(off, 16) == 1
  {
  }

  /** A new file (mkfs/mkfs.c:145). */
  method AddFile(img: Image, root: nat, ghost k: nat) returns (file: nat)
    requires Rooted(img, root, k) && img.freeinode < NINODES
    modifies img`freeinode, img`dinodes
    ensures Rooted(img, root, k) && file == old(img.freeinode) && img.freeinode == file + 1
    ensures |img.dinodes| == NINODES && img.dinodes[file].typ == 2 && img.dinodes[file].size == 0
  {
    hide State.Inv, Contents;
    file := img.Ialloc(2);
  }

  /** mkfs up to the root directory's own two entries (mkfs/mkfs.c:93-125). */
  method Start() returns (img: Image, root: nat)
    ensures fresh(img) && Rooted(img, root, 2) && img.freeinode == 2
  {
    hide State.Inv, Contents;
    img := new Image();
    root := img.Ialloc(1);
    AddEntry(img, root, DirEntry(root, [46]), 0);
    AddEntry(img, root, DirEntry(root, [46, 46]), 1);
  }

  /** mkfs with `n` empty files (mkfs/mkfs.c:116-156): the root directory has two entries more. */
  method Build(n: nat) returns (img: Image, root: nat)
    requires n <= 100
    ensures fresh(img) && Rooted(img, root, n + 2) && img.freeinode == n + 2
  {
    hide Rooted;
    img, root := Start();
    var i := 0;
    while i < n
      invariant 0 <= i <= n && fresh(img) && Rooted(img, root, i + 2) && img.freeinode == i + 2
    {
      var file := AddFile(img, root, i + 2);
      AddEntry(img, root, DirEntry(file, [97, 48 + i]), i + 2);
      i := i + 1;
    }
  }

  /** With 62 files the root directory is one whole block; mkfs then rounds its size to two, and the second is a
      hole: the image is not in the file system's invariant. */
  method RootHole() returns (img: Image)
    ensures !State(SB, img.disk, img.dinodes, img.owner).Inv()
  {
    var root;
    img, root := Build(62);
    img.Finish(root);
  }

  /** A file of two bytes is overwritten from memory of which the second byte cannot be read: its block changes,
      and no transaction holds it. */
  method TornWrite() returns (fs: FileSystem, ghost before: seq<Block>)
    ensures fs.S().Inv() && !AllLogged(before, fs.disk, fs.logged)
  {
    hide State.Inv, State.Owned, State.At, Contents, AllLogged, Torn;
    var file;
    fs, file := TwoBytes();
    var ip := new Inode(file, fs.dinodes[file]);
    assert fs.V(ip) == fs.S();
    var ret, out := fs.Readi(ip, 0, 1, 1);
    before := fs.disk;
    var other := if out[0] == 0 then 1 else 0;
    TornHere(fs.S(), file, [other, 0]);
    var panic;
    ghost var lost;
    panic, ret, lost := fs.Writei(ip, 0, [other, 0], 1);
  }

  /** A file system with a file of two bytes. */
  method TwoBytes() returns (fs: FileSystem, file: nat)
    ensures fresh(fs) && fs.S().Inv() && fs.logged == {} && file < |fs.dinodes|
    ensures fs.dinodes[file].typ != 0 && fs.dinodes[file].size == 2
  {
    hide State.Inv, Contents;
    var img, root := Build(0);
    file := AddFile(img, root, 2);
    assert BlocksIn(0, 2) == 1;
    img.Iappend(file, [7, 7]);
    img.Finish(root);
    fs := new FileSystem(SB, img.disk, img.dinodes, img.owner);
  }

  lemma TornHere(s: State, inum: nat, data: seq<nat>)
    requires s.Inv() && inum < |s.nodes| && s.nodes[inum].size == 2 && |data| == 2 && data[0] != Contents(s, inum)[0]
    ensures s.Owned() && Torn(s, {}, inum, 0, data, 1)
  {
    hide State.At, State.ByteOf, State.BitOk;
    NoHole(s, inum, 0);
    assert data[0] != s.ByteOf(inum, 0 + 0) && (0 + 0) / BSIZE == (0 + 1) / BSIZE;
  }

  /** A process of one page asks to shrink by two: the sum wraps, growproc reports success, and nothing shrinks. */
  method GrowWraps(k: Memory, r: nat, ghost extra: map<nat, nat>) returns (ret: int, size: nat)
    requires UserOk(k.V(), r, 1, extra) && forall v | v in extra :: v >= PgUp(UserVm.WRAP)
    modifies k
    ensures ret == 0 && size == P.PGSIZE && UserOk(k.V(), r, 1, extra)
  {
    hide UserOk;
    assert PgUp(P.PGSIZE) == 1;
    ret, size := Growproc(k, r, P.PGSIZE, -2 * P.PGSIZE, extra);
  }
}
