/** Directories (kernel/fs.c:519-583) over the inode contents, and path lookup (kernel/fs.c:624-674). */
module Directory {
  import opened Basics
  import opened Paths
  import opened FsState
  import opened Fs

  const DIRENT: nat := 16
  const T_DIR: nat := 1
  const ROOTINO: nat := 1

  /** The number of entries of a directory with contents `c`. */
  function Count(c: seq<nat>): nat { |c| / DIRENT }

  /** Inode number and name of entry `k`. */
  function Inum(c: seq<nat>, k: nat): nat
    requires k < Count(c)
  {
    c[k * DIRENT] + 256 * c[k * DIRENT + 1]
  }

  function Name(c: seq<nat>, k: nat): seq<nat>
    requires k < Count(c)
  {
    c[k * DIRENT + 2..k * DIRENT + DIRENT]
  }

  /** Entry `k` is in use, with this key. */
  ghost predicate Live(c: seq<nat>, k: nat, key: seq<nat>)
    requires k < Count(c)
  {
    Inum(c, k) != 0 && Key(Name(c, k)) == key
  }

  /** No two entries in use have the same key. */
  ghost predicate Unique(c: seq<nat>) {
    forall i: nat, j: nat | i < Count(c) && j < Count(c) && i != j :: Differ(c, i, j)
  }

  ghost predicate Differ(c: seq<nat>, i: nat, j: nat)
    requires i < Count(c) && j < Count(c)
  {
    Inum(c, i) == 0 || Inum(c, j) == 0 || Key(Name(c, i)) != Key(Name(c, j))
  }

  /** The directory as a finite map: `v` is 0 when the key is absent. */
  ghost predicate Maps(c: seq<nat>, key: seq<nat>, v: nat) {
    if v == 0 then forall k: nat | k < Count(c) :: !Live(c, k, key) else exists k: nat ::
      k < Count(c) && Live(c, k, key) && Inum(c, k) == v
  }

  /** The inode number of the first entry with this key from entry `k` on, 0 if there is none. */
  ghost function Find(c: seq<nat>, key: seq<nat>, k: nat): nat
    decreases |c| - k
  {
    if k >= Count(c) then 0 else if Live(c, k, key) then Inum(c, k) else Find(c, key, k + 1)
  }

  lemma {:induction false} FindIs(c: seq<nat>, key: seq<nat>, k: nat, j: nat)
    requires k <= j <= Count(c) && (forall i: nat | i < j && i < Count(c) :: !Live(c, i, key))
    requires (j < Count(c) ==> Live(c, j, key))
    ensures Find(c, key, k) == if j < Count(c) then Inum(c, j) else 0
    decreases j - k
  {
    if k < j {
      assert !Live(c, k, key);
      FindIs(c, key, k + 1, j);
    }
  }

  /** Where names are unique, the search order does not matter. */
  lemma FindMaps(c: seq<nat>, key: seq<nat>, v: nat)
    requires Unique(c) && Maps(c, key, v)
    ensures Find(c, key, 0) == v
  {
    hide Inum, Name, CStr, Find;
    if v == 0 {
      FindIs(c, key, 0, Count(c));
    } else {
      var k: nat :| k < Count(c) && Live(c, k, key) && Inum(c, k) == v;
      forall i: nat | i < k && i < Count(c) ensures !Live(c, i, key) { assert Differ(c, i, k); }
      FindIs(c, key, 0, k);
    }
  }

  /** It is a function: a key has exactly one value. */
  lemma MapsOne(c: seq<nat>, key: seq<nat>, v: nat, w: nat)
    requires Unique(c) && Maps(c, key, v) && Maps(c, key, w)
    ensures v == w
  {
    if v != 0 && w != 0 {
      var i: nat :| i < Count(c) && Live(c, i, key) && Inum(c, i) == v;
      var j: nat :| j < Count(c) && Live(c, j, key) && Inum(c, j) == w;
      assert i != j ==> Differ(c, i, j);
    }
  }

  /** The 16 bytes of an entry. */
  function Entry(inum: nat, name: seq<nat>): (e: seq<nat>)
    requires |name| == DIRSIZ
    ensures |e| == DIRENT
  {
    [inum % 256, inum / 256 % 256] + name
  }

  /** Contents with entry `k` written: in place, or at the end. */
  ghost predicate Written1(c: seq<nat>, c': seq<nat>, k: nat, e: seq<nat>) {
    |c| % DIRENT == 0 && k <= Count(c) && |e| == DIRENT && c' == Put(c, k * DIRENT, e)
  }

  lemma EntryKept(c: seq<nat>, c': seq<nat>, k: nat, e: seq<nat>, j: nat)
    requires Written1(c, c', k, e) && j < Count(c) && j != k
    ensures j < Count(c') && Inum(c', j) == Inum(c, j) && Name(c', j) == Name(c, j)
  {
    PutLength(c, c', k, e);
    forall x: nat | j * DIRENT <= x < j * DIRENT + DIRENT ensures c'[x] == c[x] { PutAt(c, k * DIRENT, e, x); }
    assert Name(c', j) == Name(c, j);
  }

  lemma PutLength(c: seq<nat>, c': seq<nat>, k: nat, e: seq<nat>)
    requires Written1(c, c', k, e)
    ensures |c'| % DIRENT == 0 && Count(c') == (if k == Count(c) then Count(c) + 1 else Count(c)) && k < Count(c')
  {
  }

  lemma PutAt(c: seq<nat>, off: nat, e: seq<nat>, x: nat)
    requires off <= |c| && x < |Put(c, off, e)|
    ensures Put(c, off, e)[x] == if off <= x < off + |e| then e[x - off] else c[x]
  {
  }

  lemma EntryNew(c: seq<nat>, c': seq<nat>, k: nat, inum: nat, name: seq<nat>)
    requires |name| == DIRSIZ && Written1(c, c', k, Entry(inum, name)) && inum < 0x1_0000
    ensures k < Count(c') && Inum(c', k) == inum && Name(c', k) == name
  {
    var e := Entry(inum, name);
    PutLength(c, c', k, e);
    forall x: nat | k * DIRENT <= x < k * DIRENT + DIRENT ensures c'[x] == e[x - k * DIRENT] {
      PutAt(c, k * DIRENT, e, x);
    }
    assert Name(c', k) == name;
  }

  /** Entry `k` may be used for a new name. */
  ghost predicate Vacant(c: seq<nat>, k: nat) { k == Count(c) || (k < Count(c) && Inum(c, k) == 0) }

  /** A new entry changes what the directory says of its own key, and of no other. */
  lemma LinkMaps(c: seq<nat>, c': seq<nat>, k: nat, inum: nat, name: seq<nat>, key: seq<nat>, v: nat)
    requires |name| == DIRSIZ && Written1(c, c', k, Entry(inum, name)) && inum < 0x1_0000 && Vacant(c, k)
    requires key != Key(name)
    ensures Maps(c', key, v) <==> Maps(c, key, v)
  {
    hide Inum, Name, CStr, Entry;
    EntryNew(c, c', k, inum, name);
    PutLength(c, c', k, Entry(inum, name));
    forall j: nat | j < Count(c) && j != k
      ensures j < Count(c') && (Live(c', j, key) <==> Live(c, j, key)) && Inum(c', j) == Inum(c, j)
    {
      EntryKept(c, c', k, Entry(inum, name), j);
    }
    assert !Live(c', k, key);
    if v == 0 {
      forall j: nat | j < Count(c) ensures Live(c, j, key) ==> j != k {}
    } else {
      if Maps(c, key, v) {
        var j: nat :| j < Count(c) && Live(c, j, key) && Inum(c, j) == v;
        assert Live(c', j, key);
      }
      if Maps(c', key, v) {
        var j: nat :| j < Count(c') && Live(c', j, key) && Inum(c', j) == v;
        assert Live(c, j, key);
      }
    }
  }

  lemma LinkUnique(c: seq<nat>, c': seq<nat>, k: nat, inum: nat, name: seq<nat>)
    requires |name| == DIRSIZ && Written1(c, c', k, Entry(inum, name)) && inum < 0x1_0000 && Vacant(c, k)
    requires Unique(c) && Maps(c, Key(name), 0)
    ensures Unique(c') && Maps(c', Key(name), inum)
  {
    hide Inum, Name, CStr, Entry;
    EntryNew(c, c', k, inum, name);
    PutLength(c, c', k, Entry(inum, name));
    forall j: nat | j < Count(c) && j != k
      ensures j < Count(c') && Inum(c', j) == Inum(c, j) && Name(c', j) == Name(c, j) && !Live(c, j, Key(name))
    {
      EntryKept(c, c', k, Entry(inum, name), j);
    }
    forall i: nat, j: nat | i < Count(c') && j < Count(c') && i != j ensures Differ(c', i, j) {
      if i != k && j != k { assert Differ(c, i, j); }
    }
    if inum == 0 {
      forall j: nat | j < Count(c') ensures !Live(c', j, Key(name)) { assert j != k ==> !Live(c, j, Key(name)); }
    } else {
      assert Live(c', k, Key(name));
    }
  }

  /** What a directory operation needs of its directory. */
  ghost predicate DirOk(s: State, inum: nat) {
    s.Inv() && inum < |s.nodes| && s.nodes[inum].typ == T_DIR && s.nodes[inum].size % DIRENT == 0
  }

  /** readi of one entry (kernel/fs.c:539, 571). */
  method ReadEntry(fs: FileSystem, dp: Inode, off: nat) returns (inum: nat, name: seq<nat>)
    requires dp.inum < |fs.dinodes| && DirOk(fs.V(dp), dp.inum) && off % DIRENT == 0 && off < dp.size
    modifies fs`disk, fs`logged, fs`owner, dp`addrs
    ensures fs.V(dp) == old(fs.V(dp)) && fs.logged == old(fs.logged)
    ensures off / DIRENT < Count(Contents(fs.V(dp), dp.inum))
    ensures inum == Inum(Contents(fs.V(dp), dp.inum), off / DIRENT)
    ensures name == Name(Contents(fs.V(dp), dp.inum), off / DIRENT)
  {
    hide State.Inv, Inum, Name, Contents, DirOk;
    DirSize(fs.V(dp), dp.inum);
    ghost var c := Contents(fs.V(dp), dp.inum);
    ContentsSize(fs.V(dp), dp.inum);
    EntryPlace(off, dp.size);
    var ret, de := fs.Readi(dp, off, DIRENT, DIRENT);
    EntryRead(c, off / DIRENT, de);
    inum, name := de[0] + 256 * de[1], de[2..DIRENT];
  }

  /** dirlookup (kernel/fs.c:529-553): the inode number of the first entry with the name's key, 0 if there
      is none. */
  method Dirlookup(fs: FileSystem, dp: Inode, name: seq<nat>) returns (inum: nat, off: nat)
    requires dp.inum < |fs.dinodes| && DirOk(fs.V(dp), dp.inum)
    modifies fs`disk, fs`logged, fs`owner, dp`addrs
    ensures fs.V(dp) == old(fs.V(dp)) && fs.logged == old(fs.logged)
    ensures Maps(Contents(fs.V(dp), dp.inum), Key(name), inum)
    ensures inum == Find(Contents(fs.V(dp), dp.inum), Key(name), 0)
    ensures inum != 0 ==> off % DIRENT == 0 && off < dp.size
    ensures inum != 0 ==> Live(Contents(fs.V(dp), dp.inum), off / DIRENT, Key(name))
  {
    hide State.Inv, CStr, Inum, Name, Contents, DirOk;
    ghost var s := fs.V(dp);
    DirSize(s, dp.inum);
    ghost var c, key := Contents(s, dp.inum), Key(name);
    off := 0;
    while off < dp.size
      invariant off % DIRENT == 0 && fs.V(dp) == s && fs.logged == old(fs.logged) && dp.size == old(dp.size)
      invariant dp.typ == old(dp.typ)
      invariant forall k: nat | k < Count(c) && k < off / DIRENT :: !Live(c, k, key)
    {
      var entry;
      inum, entry := ReadEntry(fs, dp, off);
      if inum != 0 {
        var r := Strncmp(name, entry, DIRSIZ);
        if r == 0 {
          FindIs(c, key, 0, off / DIRENT);
          return;
        }
      }
      off := off + DIRENT;
    }
    FindIs(c, key, 0, Count(c));
    inum := 0;
  }

  lemma DirSize(s: State, inum: nat)
    requires DirOk(s, inum)
    ensures s.Inv() && inum < |s.nodes| && s.nodes[inum].typ == T_DIR && s.nodes[inum].size % DIRENT == 0
    ensures Count(Contents(s, inum)) * DIRENT == |Contents(s, inum)| == s.nodes[inum].size
  {
  }

  lemma EntryPlace(off: nat, size: nat)
    requires off % DIRENT == 0 && size % DIRENT == 0 && off < size
    ensures off + DIRENT <= size && off / DIRENT * DIRENT == off && off / DIRENT < size / DIRENT
  {
  }

  lemma EntryRead(c: seq<nat>, k: nat, de: seq<nat>)
    requires k < Count(c) && de == c[k * DIRENT..k * DIRENT + DIRENT]
    ensures |de| == DIRENT && Inum(c, k) == de[0] + 256 * de[1] && Name(c, k) == de[2..DIRENT]
  {
  }

  /** dirlink's search for an empty entry (kernel/fs.c:570-575). */
  method FindVacant(fs: FileSystem, dp: Inode) returns (off: nat)
    requires dp.inum < |fs.dinodes| && DirOk(fs.V(dp), dp.inum)
    modifies fs`disk, fs`logged, fs`owner, dp`addrs
    ensures fs.V(dp) == old(fs.V(dp)) && fs.logged == old(fs.logged)
    ensures off % DIRENT == 0 && off <= dp.size && Vacant(Contents(fs.V(dp), dp.inum), off / DIRENT)
    ensures forall k: nat | k < off / DIRENT :: !Vacant(Contents(fs.V(dp), dp.inum), k)
  {
    hide State.Inv, Inum, Name, Contents, DirOk;
    ghost var s := fs.V(dp);
    DirSize(s, dp.inum);
    ghost var c := Contents(s, dp.inum);
    off := 0;
    while off < dp.size
      invariant off % DIRENT == 0 && off <= dp.size && fs.V(dp) == s && fs.logged == old(fs.logged)
      invariant dp.size == old(dp.size) && dp.typ == old(dp.typ)
      invariant forall k: nat | k < off / DIRENT :: !Vacant(c, k)
    {
      var inum, _ := ReadEntry(fs, dp, off);
      if inum == 0 {
        return;
      }
      assert (off + DIRENT) / DIRENT == off / DIRENT + 1;
      off := off + DIRENT;
    }
  }

  /** What dirlink promises: from `s` to `s'` directory `d` came to say `v` of `key`, and of every other key
      it says what it said before; no other file changed. */
  ghost predicate Linked(s: State, s': State, d: nat, key: seq<nat>, v: nat) {
    && DirOk(s, d) && DirOk(s', d) && |s'.nodes| == |s.nodes|
    && Unique(Contents(s, d)) && Unique(Contents(s', d))
    && Maps(Contents(s, d), key, 0) && Maps(Contents(s', d), key, v)
    && (forall other: seq<nat>, w: nat | other != key ::
        Maps(Contents(s', d), other, w) <==> Maps(Contents(s, d), other, w))
    && (forall i: nat | i < |s.nodes| :: KeptFile(s, s', d, i))
  }

  ghost predicate KeptFile(s: State, s': State, d: nat, i: nat)
    requires s.Inv() && s'.Inv() && i < |s.nodes| == |s'.nodes|
  {
    s'.nodes[i].typ == s.nodes[i].typ && (i != d ==> Contents(s', i) == Contents(s, i))
  }

  /** dirlink (kernel/fs.c:556-583): fails exactly when the name's key is there; otherwise the directory
      says `inum`, in 16 bits, of that key. It panics only when the directory cannot grow or the disk is full. */
  method Dirlink(fs: FileSystem, dp: Inode, name: seq<nat>, inum: nat) returns (panic: bool, ret: int)
    requires dp.inum < |fs.dinodes| && DirOk(fs.S(), dp.inum) && fs.V(dp) == fs.S() && Unique(Contents(fs.S(), dp.inum))
    modifies fs`disk, fs`logged, fs`owner, fs`dinodes, dp`addrs, dp`size
    ensures |fs.dinodes| == |old(fs.dinodes)| && (ret == 0 || ret == -1)
    ensures panic ==>
              (fs.sb.Ok() && |fs.disk| == fs.sb.size && Full(fs.sb, fs.disk)) || old(dp.size) + DIRENT > MAXFILE * BSIZE
    ensures !panic ==> fs.V(dp) == fs.S()
    ensures !panic ==> (ret == -1 <==> !Maps(old(Contents(fs.S(), dp.inum)), Key(name), 0))
    ensures !panic && ret == -1 ==> fs.S() == old(fs.S())
    ensures !panic && ret == 0 ==> Linked(old(fs.S()), fs.S(), dp.inum, Key(name), inum % 0x1_0000)
    ensures !panic && ret == 0 ==> Changes(old(fs.S()), fs.S(), fs.logged)
    ensures !panic ==> Placed(fs.sb, dp.inum, old(fs.logged), fs.logged) && |fs.logged - old(fs.logged)| <= 10
  {
    hide State.Inv, CStr, Maps, Unique, Written, DirOk, Contents, Linked, Inum, Name, Find;
    hide AllLogged, Placed, WriteBound;
    ghost var s := fs.S();
    PlacedNone(fs.sb, dp.inum, fs.logged);
    assert fs.logged - fs.logged == {};
    DirSize(s, dp.inum);
    ghost var c := Contents(s, dp.inum);
    ContentsSize(s, dp.inum);
    panic, ret := false, 0;
    var found, _ := Dirlookup(fs, dp, name);
    if found != 0 {
      AbsentOr(c, Key(name), found);
      return false, -1;
    }
    var off := FindVacant(fs, dp);
    var field := Strncpy(name, DIRSIZ);
    var v := inum % 0x1_0000;
    var n;
    ghost var lost;
    panic, n, lost := fs.Writei(dp, off, Entry(v, field), DIRENT);
    if panic || n != DIRENT {
      return true, 0;
    }
    EntryWritten(s, fs.S(), dp.inum, off, v, field);
    WrittenNodes(s, fs.S(), dp.inum, fs.logged);
    ChangesOne(s, fs.S(), dp.inum, fs.logged);
    ChunkBound(off, DIRENT);
  }

  lemma WrittenNodes(s: State, s': State, inum: nat, logged: set<nat>)
    requires inum < |s.nodes| && NodesLogged(s, s', inum, logged)
    ensures |s'.nodes| == |s.nodes| && s'.nodes == s.nodes[inum := s'.nodes[inum]]
  {
  }

  lemma EntryWritten(s: State, s': State, d: nat, off: nat, v: nat, field: seq<nat>)
    requires DirOk(s, d) && off % DIRENT == 0 && off <= s.nodes[d].size && |field| == DIRSIZ && v < 0x1_0000
    requires Vacant(Contents(s, d), off / DIRENT) && Unique(Contents(s, d)) && Maps(Contents(s, d), Key(field), 0)
    requires Written(s, s', d, off, Entry(v, field), DIRENT)
    requires s'.nodes[d].size == if off + DIRENT > s.nodes[d].size then off + DIRENT else s.nodes[d].size
    ensures Linked(s, s', d, Key(field), v)
  {
    hide State.Inv, CStr, Maps, Unique, Written, Contents, Inum, Name, Find, Entry, Vacant;
    var k, e := off / DIRENT, Entry(v, field);
    WrittenContents(s, s', d, off, e);
    WrittenType(s, s', d, off, e, d);
    var c, c' := Contents(s, d), Contents(s', d);
    DirSize(s, d);
    assert Written1(c, c', k, e);
    LinkUnique(c, c', k, v, field);
    forall key: seq<nat>, w: nat | key != Key(field) ensures Maps(c', key, w) <==> Maps(c, key, w) {
      LinkMaps(c, c', k, v, field, key, w);
    }
    forall i: nat | i < |s.nodes| ensures KeptFile(s, s', d, i) { WrittenType(s, s', d, off, e, i); }
  }

  lemma AbsentOr(c: seq<nat>, key: seq<nat>, v: nat)
    requires v != 0 && Maps(c, key, v)
    ensures !Maps(c, key, 0)
  {
  }

  lemma WrittenType(s: State, s': State, inum: nat, off: nat, data: seq<nat>, i: nat)
    requires Written(s, s', inum, off, data, |data|) && i < |s.nodes|
    ensures i < |s'.nodes| == |s.nodes| && s'.Inv() && s'.nodes[i].typ == s.nodes[i].typ
  {
    assert HeadKept(s, s', inum, i);
  }

  /** Where a path leads. An inode of type 0 makes ilock panic. */
  datatype Place = Nowhere | Panics | Here(inum: nat)

  /** Every directory is a whole number of entries, and they name inodes that exist. */
  ghost predicate Tree(s: State) {
    s.Inv() && forall d: nat | d < |s.nodes| && s.nodes[d].typ == T_DIR :: EntriesOk(s, d)
  }

  ghost predicate EntriesOk(s: State, d: nat)
    requires s.Inv() && d < |s.nodes|
  {
    DirOk(s, d) && forall k: nat | k < Count(Contents(s, d)) :: Inum(Contents(s, d), k) < |s.nodes|
  }

  lemma {:induction false} FindSmall(c: seq<nat>, key: seq<nat>, k: nat, n: nat)
    requires n > 0 && forall j: nat | j < Count(c) :: Inum(c, j) < n
    ensures Find(c, key, k) < n
    decreases |c| - k
  {
    if k < Count(c) && !Live(c, k, key) { FindSmall(c, key, k + 1, n); }
  }

  /** One component: the inode it names in directory `d`. */
  ghost function Step(s: State, d: nat, elem: seq<nat>): (r: Place)
    requires Tree(s) && d < |s.nodes|
    ensures r.Here? ==> r.inum < |s.nodes|
  {
    if s.nodes[d].typ == 0 then Panics else if s.nodes[d].typ != T_DIR then Nowhere else
      assert EntriesOk(s, d);
      FindSmall(Contents(s, d), Key(elem), 0, |s.nodes|);
      var v := Find(Contents(s, d), Key(elem), 0);
      if v == 0 then Nowhere else Here(v)
  }

  /** A path is a fold of lookups over its components. */
  ghost function Walk(s: State, d: nat, elems: seq<seq<nat>>): (r: Place)
    requires Tree(s) && d < |s.nodes|
    ensures r.Here? ==> r.inum < |s.nodes|
    decreases |elems|
  {
    if elems == [] then Here(d) else
      var next := Step(s, d, elems[0]);
      if next.Here? then Walk(s, next.inum, elems[1..]) else next
  }

  /** Walking in two parts. */
  lemma {:induction false} WalkSplit(s: State, d: nat, a: seq<seq<nat>>, b: seq<seq<nat>>)
    requires Tree(s) && d < |s.nodes|
    ensures var mid := Walk(s, d, a); Walk(s, d, a + b) == if mid.Here? then Walk(s, mid.inum, b) else mid
    decreases |a|
  {
    hide Tree, Step;
    if a == [] {
      assert a + b == b;
    } else {
      assert (a + b)[0] == a[0] && (a + b)[1..] == a[1..] + b;
      if Step(s, d, a[0]).Here? { WalkSplit(s, Step(s, d, a[0]).inum, a[1..], b); }
    }
  }

  /** The parent directory: what all components but the last lead to, if it is a directory. */
  ghost function Parent(s: State, d: nat, elems: seq<seq<nat>>): Place
    requires Tree(s) && d < |s.nodes|
  {
    if elems == [] then Nowhere else
      var p := Walk(s, d, elems[..|elems| - 1]);
      if p.Here? then
        if s.nodes[p.inum].typ == 0 then Panics else if s.nodes[p.inum].typ == T_DIR then p else Nowhere
      else p
  }

  ghost function Goal(s: State, d: nat, elems: seq<seq<nat>>, parent: bool): Place
    requires Tree(s) && d < |s.nodes|
  {
    if parent then Parent(s, d, elems) else Walk(s, d, elems)
  }

  /** After `n` components, the next step goes on. */
  lemma WalkOn(s: State, d: nat, all: seq<seq<nat>>, n: nat, at: nat)
    requires Tree(s) && d < |s.nodes| && n < |all| && Walk(s, d, all[..n]) == Here(at)
    ensures Walk(s, d, all[..n + 1]) == Step(s, at, all[n])
  {
    hide Tree, Step;
    assert all[..n + 1] == all[..n] + [all[n]];
    WalkSplit(s, d, all[..n], [all[n]]);
  }

  /** After `n` components, a step that does not lead on decides. */
  lemma WalkFails(s: State, d: nat, all: seq<seq<nat>>, n: nat, at: nat, parent: bool)
    requires Tree(s) && d < |s.nodes| && n < |all| && Walk(s, d, all[..n]) == Here(at) && !Step(s, at, all[n]).Here?
    requires parent && n == |all| - 1 ==> s.nodes[at].typ != T_DIR
    ensures Goal(s, d, all, parent) == Step(s, at, all[n])
  {
    hide Tree;
    var m := if parent then |all| - 1 else |all|;
    if n < m {
      WalkSplit(s, d, all[..n], all[n..m]);
      assert all[..m] == all[..n] + all[n..m] && all[..|all|] == all;
    }
  }

  /** namex (kernel/fs.c:628-661): the path's components are looked up one after the other, from the root
      if the path begins with a slash and else from the current directory; with `parent` it stops at the
      directory that the last component is to be looked up in and leaves that component in `name`. */
  method Namex(fs: FileSystem, cwd: nat, path: seq<nat>, parent: bool) returns (r: Place, name: seq<nat>)
    requires Tree(fs.S()) && cwd < |fs.dinodes| && ROOTINO < |fs.dinodes| && 0 !in path
    modifies fs`disk, fs`logged, fs`owner
    ensures fs.S() == old(fs.S()) && fs.logged == old(fs.logged)
    ensures var start := if path != [] && path[0] == SLASH then ROOTINO else cwd;
            r == Goal(fs.S(), start, Components(path), parent)
    ensures parent && r.Here? ==> Components(path) != [] && Key(name) == Key(Components(path)[|Components(path)| - 1])
  {
    hide Tree, Step, Walk, Components, CStr, State.Inv, DirOk, Contents, Find;
    ghost var s := fs.S();
    var inum: nat := if path != [] && path[0] == SLASH then ROOTINO else cwd;
    ghost var start, all, n: nat := inum, Components(path), 0;
    var left := path;
    WalkNone(s, start, all);
    while true
      invariant fs.S() == s && fs.logged == old(fs.logged) && inum < |s.nodes| && 0 !in left
      invariant n <= |all| && Components(left) == all[n..] && Walk(s, start, all[..n]) == Here(inum)
      invariant (parent && n > 0 ==> n < |all|)
      decreases |left|
    {
      var rest;
      rest, name := Skipelem(left);
      if rest.None? {
        assert all[..n] == all;
        r := if parent then Nowhere else Here(inum);
        return;
      }
      left := rest.value;
      var ip := new Inode(inum, fs.dinodes[inum]);
      if ip.typ != T_DIR {
        r := if ip.typ == 0 then Panics else Nowhere;
        StepNot(s, inum, all[n]);
        WalkFails(s, start, all, n, inum, parent);
        return;
      }
      if parent && left == [] {
        r := Here(inum);
        return;
      }
      var next := LookupIn(fs, ip, name, all[n]);
      if next == 0 {
        WalkFails(s, start, all, n, inum, parent);
        r := Nowhere;
        return;
      }
      WalkOn(s, start, all, n, inum);
      inum, n := next, n + 1;
    }
  }

  lemma WalkNone(s: State, d: nat, all: seq<seq<nat>>)
    requires Tree(s) && d < |s.nodes|
    ensures Walk(s, d, all[..0]) == Here(d) && all[0..] == all
  {
  }

  lemma StepNot(s: State, d: nat, elem: seq<nat>)
    requires Tree(s) && d < |s.nodes| && s.nodes[d].typ != T_DIR
    ensures Step(s, d, elem) == if s.nodes[d].typ == 0 then Panics else Nowhere
  {
  }

  /** namex's dirlookup in a directory just locked (kernel/fs.c:649-652). */
  method LookupIn(fs: FileSystem, ip: Inode, name: seq<nat>, ghost elem: seq<nat>) returns (next: nat)
    requires Tree(fs.S()) && ip.inum < |fs.dinodes| && ip.D() == fs.dinodes[ip.inum] && ip.typ == T_DIR
    requires Key(name) == Key(elem)
    modifies fs`disk, fs`logged, fs`owner, ip`addrs
    ensures fs.S() == old(fs.S()) && fs.logged == old(fs.logged)
    ensures Step(fs.S(), ip.inum, elem) == (if next == 0 then Nowhere else Here(next)) && next < |fs.dinodes|
  {
    hide State.Inv, CStr, DirOk, Contents, Find, Inum, Name;
    ghost var s := fs.S();
    assert EntriesOk(s, ip.inum);
    assert fs.V(ip) == s;
    FindSmall(Contents(s, ip.inum), Key(name), 0, |s.nodes|);
    var off;
    next, off := Dirlookup(fs, ip, name);
  }

  /** A new link leaves every lookup that succeeded as it was. */
  lemma StepKept(s: State, s': State, d: nat, key: seq<nat>, v: nat, at: nat, elem: seq<nat>)
    requires Tree(s) && Tree(s') && Linked(s, s', d, key, v) && at < |s.nodes| && Step(s, at, elem).Here?
    ensures Step(s', at, elem) == Step(s, at, elem)
  {
    hide State.Inv, CStr, Contents, Inum, Name, Find, Maps, Unique, DirOk;
    assert KeptFile(s, s', d, at);
    if at == d {
      var c, c', w := Contents(s, d), Contents(s', d), Find(Contents(s, d), Key(elem), 0);
      FindIn(c, Key(elem));
      MapsFound(c, key, Key(elem), w);
      assert Maps(c', Key(elem), w);
      FindMaps(c', Key(elem), w);
    }
  }

  lemma MapsFound(c: seq<nat>, key: seq<nat>, other: seq<nat>, w: nat)
    requires Maps(c, key, 0) && Maps(c, other, w) && w != 0
    ensures other != key
  {
  }

  /** What the search finds is what the directory says. */
  lemma FindIn(c: seq<nat>, key: seq<nat>)
    ensures Maps(c, key, Find(c, key, 0))
  {
    hide Inum, Name, CStr;
    FindSome(c, key, 0);
  }

  lemma {:induction false} FindSome(c: seq<nat>, key: seq<nat>, k: nat)
    ensures var v := Find(c, key, k);
            if v == 0 then forall i: nat | k <= i < Count(c) :: !Live(c, i, key)
            else exists i: nat :: i < Count(c) && Live(c, i, key) && Inum(c, i) == v
    decreases |c| - k
  {
    if k < Count(c) && !Live(c, k, key) { FindSome(c, key, k + 1); }
  }

  /** A new link leaves every path that led somewhere as it was. */
  lemma {:induction false} WalkKept(s: State, s': State, d: nat, key: seq<nat>, v: nat, at: nat, elems: seq<seq<nat>>)
    requires Tree(s) && Tree(s') && Linked(s, s', d, key, v) && at < |s.nodes| && Walk(s, at, elems).Here?
    ensures Walk(s', at, elems) == Walk(s, at, elems)
    decreases |elems|
  {
    hide Tree, Step, Linked, DirOk;
    LinkedShape(s, s', d, key, v);
    if elems != [] {
      StepKept(s, s', d, key, v, at, elems[0]);
      WalkKept(s, s', d, key, v, Step(s, at, elems[0]).inum, elems[1..]);
    }
  }

  lemma LinkedShape(s: State, s': State, d: nat, key: seq<nat>, v: nat)
    requires Linked(s, s', d, key, v)
    ensures d < |s.nodes| == |s'.nodes| && s'.nodes[d].typ == T_DIR
  {
  }

  /** Linking a name in the directory that nameiparent found makes namei of the same path find it. */
  lemma LinkThenFind(s: State, s': State, start: nat, elems: seq<seq<nat>>, d: nat, v: nat)
    requires Tree(s) && start < |s.nodes| && elems != [] && Parent(s, start, elems) == Here(d) && 0 < v < |s.nodes|
    requires Linked(s, s', d, Key(elems[|elems| - 1]), v)
    ensures Tree(s') && |s'.nodes| == |s.nodes| && Walk(s', start, elems) == Here(v)
  {
    var n := |elems| - 1;
    var key := Key(elems[n]);
    hide Tree, Linked, Walk, Find, DirOk, Contents, Maps, Unique, CStr;
    LinkedShape(s, s', d, key, v);
    LinkedTree(s, s', d, key, v);
    WalkKept(s, s', d, key, v, start, elems[..n]);
    WalkOn(s', start, elems, n, d);
    assert elems[..n + 1] == elems;
    LinkedFind(s, s', d, key, v);
  }

  lemma LinkedFind(s: State, s': State, d: nat, key: seq<nat>, v: nat)
    requires Linked(s, s', d, key, v)
    ensures s'.Inv() && Find(Contents(s', d), key, 0) == v
  {
    hide Contents, Find, Maps, Unique;
    FindMaps(Contents(s', d), key, v);
  }

  /** A link to an inode that exists keeps all directories well formed. */
  lemma LinkedTree(s: State, s': State, d: nat, key: seq<nat>, v: nat)
    requires Tree(s) && Linked(s, s', d, key, v) && v < |s.nodes|
    ensures Tree(s')
  {
    hide State.Inv, CStr, Contents, Inum, Name;
    forall i: nat | i < |s'.nodes| && s'.nodes[i].typ == T_DIR ensures EntriesOk(s', i) {
      assert KeptFile(s, s', d, i) && EntriesOk(s, i);
      if i == d {
        var c, c' := Contents(s, d), Contents(s', d);
        forall k: nat | k < Count(c') ensures Inum(c', k) < |s.nodes| { EntrySmall(s, s', d, key, v, k); }
      }
    }
  }

  lemma EntrySmall(s: State, s': State, d: nat, key: seq<nat>, v: nat, k: nat)
    requires Tree(s) && Linked(s, s', d, key, v) && v < |s.nodes| && k < Count(Contents(s', d))
    ensures Inum(Contents(s', d), k) < |s.nodes|
  {
    hide State.Inv, CStr, Contents, Inum, Name, Unique, Tree;
    var c, c' := Contents(s, d), Contents(s', d);
    var other, w := Key(Name(c', k)), Inum(c', k);
    if w != 0 {
      assert Live(c', k, other) && Maps(c', other, w);
      if other == key {
        MapsOne(c', key, v, w);
      } else {
        assert Maps(c, other, w);
        var j: nat :| j < Count(c) && Live(c, j, other) && Inum(c, j) == w;
        TreeEntry(s, d, j);
      }
    }
  }

  lemma TreeEntry(s: State, d: nat, j: nat)
    requires Tree(s) && DirOk(s, d) && j < Count(Contents(s, d))
    ensures Inum(Contents(s, d), j) < |s.nodes|
  {
    hide State.Inv, Inum, Contents;
    assert EntriesOk(s, d);
  }
}
