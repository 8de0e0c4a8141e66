/** Copying between the kernel and user memory (kernel/vm.c): copyout, copyin, copyinstr agree with
    translating byte by byte, and pageaccess reports and clears the accessed bits. */
module CopyUser {
  import opened PageState
  import opened Vm
  import opened UserVm
  import opened Bits

  /** PTE_U. */
  predicate IsUser(pte: nat) { pte / 16 % 2 == 1 }

  /** The physical page a user access to page `v` reaches, 0 if there is none (kernel/vm.c:104-122). */
  ghost function PageOf(m: State, r: nat, v: nat): nat
    requires r in m.trees
  {
    if v < MAXVPN && IsValid(m.LeafPte(r, v)) && IsUser(m.LeafPte(r, v)) then Ppn(m.LeafPte(r, v)) else 0
  }

  ghost predicate Access(m: State, r: nat, x: nat)
    requires r in m.trees
  {
    PageOf(m, r, x / PGSIZE) != 0
  }

  /** The byte at the user address `x`. */
  ghost function Byte(m: State, r: nat, x: nat): nat
    requires r in m.trees
  {
    var p := PageOf(m, r, x / PGSIZE);
    if p in m.mem && IsData(m.mem[p]) then m.mem[p].bytes[x % PGSIZE] else 0
  }

  ghost predicate OpenAt(m: State, r: nat, who: map<nat, nat>, v: nat)
    requires r in m.trees
  {
    var p := PageOf(m, r, v);
    && (p != 0 ==> p in m.mem && p in m.owner && IsData(m.mem[p]) && (m.owner[p] == Held || m.owner[p].Leaf?))
    && (p != 0 ==> p in who && who[p] == v)
  }

  /** The user-accessible pages hold bytes and no two of them share a physical page. */
  ghost predicate Open(m: State, r: nat, who: map<nat, nat>) {
    m.Inv() && r in m.trees && forall v: nat :: OpenAt(m, r, who, v)
  }

  /** The tree of a process is of this kind: its user pages are its own, and of the pages above them
      user code reaches only the page shared with the kernel. */
  lemma UserIsOpen(m: State, r: nat, n: nat, extra: map<nat, nat>, shared: nat)
    requires UserOk(m, r, n, extra) && shared in extra && forall v | v in extra && v != shared :: !IsUser(extra[v])
    requires Ppn(extra[shared]) in m.mem && m.owner[Ppn(extra[shared])] == Held && IsData(m.mem[Ppn(extra[shared])])
    ensures Open(m, r, Who(m, r)[Ppn(extra[shared]) := shared])
  {
    var who := Who(m, r)[Ppn(extra[shared]) := shared];
    forall v: nat ensures OpenAt(m, r, who, v) {
      assert UserAt(m, r, n, extra, v);
      if v < n { LeafData(m, r, v); }
    }
  }

  ghost function Who(m: State, r: nat): map<nat, nat> {
    map p | p in m.owner && m.owner[p].Leaf? && m.owner[p].root == r :: m.owner[p].vpn
  }

  ghost predicate StoredAt(m: State, m': State, r: nat, a: nat, src: seq<nat>, n: nat, x: nat)
    requires r in m.trees && r in m'.trees && n <= |src|
  {
    Access(m, r, x) ==> Byte(m', r, x) == if a <= x < a + n then src[x - a] else Byte(m, r, x)
  }

  ghost predicate PageKept(m: State, m': State, r: nat, p: nat)
    requires r in m.trees
  {
    p in m.mem && p in m'.mem && (m'.mem[p] == m.mem[p] || exists v: nat :: PageOf(m, r, v) == p)
  }

  ghost predicate ReachSame(m: State, m': State, r: nat, v: nat)
    requires r in m.trees && r in m'.trees
  {
    PageOf(m', r, v) == PageOf(m, r, v)
  }

  /** From `m` to `m'` the first `n` bytes of `src` are stored at the user address `a`, nothing else. */
  ghost predicate Stored(m: State, m': State, r: nat, a: nat, src: seq<nat>, n: nat) {
    && r in m.trees && m'.trees == m.trees && m'.owner == m.owner && m'.free == m.free && m'.freelist == m.freelist
    && m'.mem.Keys == m.mem.Keys && n <= |src|
    && (forall s, v: nat | s in m.trees :: LeafSame(m, m', s, v))
    && (forall x: nat :: StoredAt(m, m', r, a, src, n, x))
    && (forall p | p in m.mem :: PageKept(m, m', r, p))
  }

  lemma StoredNone(m: State, r: nat, a: nat, src: seq<nat>)
    requires r in m.trees
    ensures Stored(m, m, r, a, src, 0)
  {
    hide State.LeafPte, PageOf;
    forall s, v: nat | s in m.trees ensures LeafSame(m, m, s, v) {}
    forall x: nat ensures StoredAt(m, m, r, a, src, 0, x) {}
    forall p | p in m.mem ensures PageKept(m, m, r, p) {}
  }

  lemma PageArith(x: nat, y: nat, n: nat)
    requires y % PGSIZE + n <= PGSIZE
    ensures y <= x < y + n <==> n > 0 && x / PGSIZE == y / PGSIZE && y % PGSIZE <= x % PGSIZE < y % PGSIZE + n
  {
    assert x == x / PGSIZE * PGSIZE + x % PGSIZE && y == y / PGSIZE * PGSIZE + y % PGSIZE;
    if y <= x < y + n { assert x / PGSIZE == y / PGSIZE; }
  }

  lemma StoreLeaves(m: State, r: nat, who: map<nat, nat>, p: nat, page: Page)
    requires Open(m, r, who) && IsData(page) && p != 0 && p in who && PageOf(m, r, who[p]) == p
    ensures p in m.mem
    ensures var m' := m.Fill(p, page);
            && m'.Inv() && (forall s, v: nat | s in m.trees :: LeafSame(m, m', s, v))
            && (forall v: nat :: ReachSame(m, m', r, v))
  {
    assert OpenAt(m, r, who, who[p]);
    hide PageOf;
    FillInv(m, p, page);
    MapFreshLeaves(m, m.Fill(p, page));
    forall v: nat ensures ReachSame(m, m.Fill(p, page), r, v) { ReachLeaf(m, m.Fill(p, page), r, v); }
  }

  lemma ReachLeaf(m: State, m': State, r: nat, v: nat)
    requires r in m.trees && r in m'.trees && LeafSame(m, m', r, v)
    ensures ReachSame(m, m', r, v)
  {
  }

  /** One page's worth of copyout. */
  lemma StoredStep(m: State, m1: State, r: nat, who: map<nat, nat>, a: nat, src: seq<nat>, n: nat, k: nat)
    requires Open(m, r, who) && Stored(m, m1, r, a, src, n) && Open(m1, r, who)
    requires n + k <= |src| && Access(m1, r, a + n) && (a + n) % PGSIZE + k <= PGSIZE
    ensures var p := PageOf(m1, r, (a + n) / PGSIZE);
            && p in m1.mem && IsData(m1.mem[p])
            && var m2 := m1.Fill(p, Data(Splice(m1.mem[p].bytes, (a + n) % PGSIZE, src[n..n + k])));
               Stored(m, m2, r, a, src, n + k) && Open(m2, r, who)
  {
    hide State.Inv, State.LeafPte, PageOf, IsData;
    var v0 := (a + n) / PGSIZE;
    var p := PageOf(m1, r, v0);
    assert OpenAt(m1, r, who, v0);
    var page := SplicedPage(m1, p, (a + n) % PGSIZE, src[n..n + k]);
    StoreLeaves(m1, r, who, p, page);
    var m2 := m1.Fill(p, page);
    StoredBytes(m, m1, m2, r, who, a, src, n, k, n + k);
    forall s, v: nat | s in m.trees ensures LeafSame(m, m2, s, v) {
      assert LeafSame(m, m1, s, v) && LeafSame(m1, m2, s, v);
    }
    forall q | q in m.mem ensures PageKept(m, m2, r, q) {
      assert PageKept(m, m1, r, q);
      if q == p { ReachBack(m, m1, r, v0); }
    }
    forall v: nat ensures OpenAt(m2, r, who, v) { assert OpenAt(m1, r, who, v) && ReachSame(m1, m2, r, v); }
  }

  ghost function SplicedPage(m: State, p: nat, off: nat, data: seq<nat>): (page: Page)
    requires p in m.mem && IsData(m.mem[p]) && off + |data| <= PGSIZE
    ensures IsData(page) && page == Data(Splice(m.mem[p].bytes, off, data))
  {
    Data(Splice(m.mem[p].bytes, off, data))
  }

  lemma ReachBack(m: State, m1: State, r: nat, v: nat)
    requires r in m.trees && m1.trees == m.trees && forall s, w: nat | s in m.trees :: LeafSame(m, m1, s, w)
    ensures PageOf(m, r, v) == PageOf(m1, r, v)
  {
    assert LeafSame(m, m1, r, v);
  }

  lemma StoredBytes(m: State, m1: State, m2: State, r: nat, who: map<nat, nat>, a: nat, src: seq<nat>, n: nat, k: nat,
                    c: nat)
    requires Stored(m, m1, r, a, src, n) && Open(m1, r, who)
    requires c == n + k <= |src| && Access(m1, r, a + n) && (a + n) % PGSIZE + k <= PGSIZE
    requires var p := PageOf(m1, r, (a + n) / PGSIZE);
             && p in m1.mem && IsData(m1.mem[p])
             && m2 == m1.Fill(p, SplicedPage(m1, p, (a + n) % PGSIZE, src[n..n + k]))
    requires forall v: nat :: ReachSame(m1, m2, r, v)
    ensures forall x: nat :: StoredAt(m, m2, r, a, src, c, x)
  {
    hide State.Inv, State.LeafPte, PageOf;
    forall x: nat ensures StoredAt(m, m2, r, a, src, c, x) {
      assert StoredAt(m, m1, r, a, src, n, x);
      if Access(m, r, x) {
        var v, v0 := x / PGSIZE, (a + n) / PGSIZE;
        ReachBack(m, m1, r, v);
        assert OpenAt(m1, r, who, v) && OpenAt(m1, r, who, v0) && ReachSame(m1, m2, r, v);
        PageArith(x, a + n, k);
        SpliceAt(m1.mem[PageOf(m1, r, v0)].bytes, (a + n) % PGSIZE, src, n, k, x % PGSIZE);
      }
    }
  }

  /** walkaddr (kernel/vm.c:104-122). */
  method Walkaddr(k: Memory, r: nat, va: nat) returns (p: nat)
    requires k.Valid() && r in k.trees
    modifies k
    ensures k.V() == old(k.V()) && p == PageOf(k.V(), r, va / PGSIZE)
  {
    hide State.Inv;
    if va >= MAXVA {
      return 0;
    }
    var found, pt, idx := k.Walk(r, va, false);
    if !found {
      return 0;
    }
    LeafEntry(k.V(), r, va / PGSIZE);
    var pte := k.mem[pt].ptes[idx];
    if !IsValid(pte) {
      return 0;
    }
    if !IsUser(pte) {
      return 0;
    }
    p := Ppn(pte);
  }

  /** All of the addresses [a, b) can be reached. */
  ghost predicate Reach(m: State, r: nat, a: nat, b: nat)
    requires r in m.trees
  {
    forall x: nat | a <= x < b :: Access(m, r, x)
  }

  /** A page can be reached as a whole or not at all. */
  lemma ReachStep(m: State, r: nat, a: nat, b: nat, n: nat)
    requires r in m.trees && Reach(m, r, a, b) && (b == a || b % PGSIZE == 0 || n == 0) && b % PGSIZE + n <= PGSIZE
    requires n > 0 ==> Access(m, r, b)
    ensures Reach(m, r, a, b + n)
  {
    hide PageOf;
    forall x: nat | a <= x < b + n ensures Access(m, r, x) {
      if x >= b { PageArith(x, b, n); }
    }
  }

  /** copyout (kernel/vm.c:347-367) succeeds exactly when every page it touches can be reached; it
      stores the bytes up to the first page that cannot. */
  method Copyout(k: Memory, r: nat, dstva: nat, src: seq<nat>, ghost who: map<nat, nat>) returns (ret: int,
                 ghost n: nat)
    requires Open(k.V(), r, who)
    modifies k
    ensures ret == 0 || ret == -1
    ensures Stored(old(k.V()), k.V(), r, dstva, src, n) && Open(k.V(), r, who)
    ensures r in old(k.trees) && Reach(old(k.V()), r, dstva, dstva + n)
    ensures ret == 0 ==> n == |src|
    ensures ret == -1 ==> n < |src| && !Access(old(k.V()), r, dstva + n)
    ensures ret == 0 <==> Reach(old(k.V()), r, dstva, dstva + |src|)
  {
    hide State.Inv, State.LeafPte, PageOf, Stored, Splice;
    ghost var m0 := k.V();
    StoredNone(m0, r, dstva, src);
    n := 0;
    var va, len, s := dstva, |src|, 0;
    while len > 0
      invariant s == n && len == |src| - n >= 0 && (len > 0 ==> va == dstva + n && (n == 0 || va % PGSIZE == 0))
      invariant Open(k.V(), r, who) && Stored(m0, k.V(), r, dstva, src, n) && Reach(m0, r, dstva, dstva + n)
    {
      ghost var m1 := k.V();
      StoredReach(m0, m1, r, dstva, src, n, va);
      var p := Walkaddr(k, r, va / PGSIZE * PGSIZE);
      if p == 0 {
        return -1, n;
      }
      var off := va % PGSIZE;
      var count := if PGSIZE - off > len then len else PGSIZE - off;
      StoredStep(m0, m1, r, who, dstva, src, n, count);
      ReachStep(m0, r, dstva, va, count);
      k.mem := k.mem[p := Data(Splice(k.mem[p].bytes, off, src[s..s + count]))];
      len := len - count;
      s := s + count;
      n := n + count;
      va := va / PGSIZE * PGSIZE + PGSIZE;
    }
    ret := 0;
  }

  lemma StoredReach(m: State, m1: State, r: nat, a: nat, src: seq<nat>, n: nat, x: nat)
    requires Stored(m, m1, r, a, src, n)
    ensures Access(m, r, x) <==> Access(m1, r, x)
  {
    ReachBack(m, m1, r, x / PGSIZE);
  }

  /** The bytes of user memory from `a` on. */
  ghost predicate Loaded(m: State, r: nat, a: nat, dst: seq<nat>)
    requires r in m.trees
  {
    Reach(m, r, a, a + |dst|) && forall i: nat | i < |dst| :: LoadedAt(m, r, a, dst, i)
  }

  ghost predicate LoadedAt(m: State, r: nat, a: nat, dst: seq<nat>, i: nat)
    requires r in m.trees && i < |dst|
  {
    dst[i] == Byte(m, r, a + i)
  }

  lemma LoadedStep(m: State, r: nat, who: map<nat, nat>, a: nat, dst: seq<nat>, k: nat)
    requires Open(m, r, who) && Loaded(m, r, a, dst) && Access(m, r, a + |dst|)
    requires (|dst| == 0 || (a + |dst|) % PGSIZE == 0) && (a + |dst|) % PGSIZE + k <= PGSIZE
    ensures var p := PageOf(m, r, (a + |dst|) / PGSIZE);
            p in m.mem && IsData(m.mem[p]) && Loaded(m, r, a,
                dst + m.mem[p].bytes[(a + |dst|) % PGSIZE..(a + |dst|) % PGSIZE + k])
  {
    hide State.Inv, State.LeafPte, PageOf;
    var y := a + |dst|;
    var p := PageOf(m, r, y / PGSIZE);
    assert OpenAt(m, r, who, y / PGSIZE);
    var next := dst + m.mem[p].bytes[y % PGSIZE..y % PGSIZE + k];
    ReachStep(m, r, a, y, k);
    forall i: nat | i < |next| ensures LoadedAt(m, r, a, next, i) {
      if i < |dst| {
        assert LoadedAt(m, r, a, dst, i);
      } else {
        PageArith(a + i, y, k);
        assert (a + i) % PGSIZE == y % PGSIZE + (i - |dst|);
      }
    }
  }

  /** copyin (kernel/vm.c:372-392) succeeds exactly when every page it touches can be reached, and then
      returns the bytes there. */
  method Copyin(k: Memory, r: nat, srcva: nat, len: nat, ghost who: map<nat, nat>) returns (ret: int, dst: seq<nat>)
    requires Open(k.V(), r, who)
    modifies k
    ensures k.V() == old(k.V()) && r in k.trees && (ret == 0 || ret == -1)
    ensures ret == 0 <==> Reach(k.V(), r, srcva, srcva + len)
    ensures Loaded(k.V(), r, srcva, dst) && |dst| <= len && (ret == 0 ==> |dst| == len)
    ensures ret == -1 ==> |dst| < len && !Access(k.V(), r, srcva + |dst|)
  {
    hide State.Inv, State.LeafPte, PageOf, Loaded;
    ghost var m := k.V();
    var va, left := srcva, len;
    dst := [];
    LoadedNone(m, r, srcva);
    while left > 0
      invariant k.V() == m && Loaded(m, r, srcva, dst) && left == len - |dst| >= 0
      invariant left > 0 ==> va == srcva + |dst| && (|dst| == 0 || va % PGSIZE == 0)
    {
      var p := Walkaddr(k, r, va / PGSIZE * PGSIZE);
      if p == 0 {
        assert !Access(m, r, va);
        return -1, dst;
      }
      var off := va % PGSIZE;
      var n := if PGSIZE - off > left then left else PGSIZE - off;
      LoadedStep(m, r, who, srcva, dst, n);
      dst := dst + k.mem[p].bytes[off..off + n];
      left := left - n;
      va := va / PGSIZE * PGSIZE + PGSIZE;
    }
    LoadedReach(m, r, srcva, dst);
    ret := 0;
  }

  lemma LoadedNone(m: State, r: nat, a: nat)
    requires r in m.trees
    ensures Loaded(m, r, a, [])
  {
  }

  lemma LoadedReach(m: State, r: nat, a: nat, dst: seq<nat>)
    requires r in m.trees && Loaded(m, r, a, dst)
    ensures Reach(m, r, a, a + |dst|)
  {
  }

  /** What a successful copyout stored, copyin returns. */
  lemma CopyRoundTrip(m: State, m': State, r: nat, a: nat, src: seq<nat>, dst: seq<nat>)
    requires Stored(m, m', r, a, src, |src|) && Loaded(m', r, a, dst) && |dst| == |src|
    ensures dst == src
  {
    hide State.LeafPte, PageOf, Access;
    forall i: nat | i < |src| ensures dst[i] == src[i] {
      assert LoadedAt(m', r, a, dst, i) && StoredAt(m, m', r, a, src, |src|, a + i);
      assert Access(m', r, a + i);
      StoredReach(m, m', r, a, src, |src|, a + i);
    }
  }

  /** A string of `n` bytes ends at `a + n`, all of it in reach. */
  ghost predicate Ends(m: State, r: nat, a: nat, n: nat)
    requires r in m.trees
  {
    Reach(m, r, a, a + n + 1) && Byte(m, r, a + n) == 0 && forall x: nat | a <= x < a + n :: Byte(m, r, x) != 0
  }

  ghost predicate NoNul(dst: seq<nat>) { 0 !in dst }

  /** The inner loop of copyinstr (kernel/vm.c:413-426): bytes are taken from the page up to a NUL, or
      `n` of them. */
  method CopyStr(bytes: seq<nat>, off: nat, n: nat) returns (out: seq<nat>, gotNull: bool)
    requires off + n <= |bytes|
    ensures |out| <= n && out == bytes[off..off + |out|] && NoNul(out)
    ensures gotNull ==> |out| < n && bytes[off + |out|] == 0
    ensures !gotNull ==> |out| == n
  {
    var left, p := n, off;
    out, gotNull := [], false;
    while left > 0
      invariant 0 <= left <= n && p == off + (n - left) && out == bytes[off..p] && NoNul(out)
    {
      if bytes[p] == 0 {
        return out, true;
      }
      out := out + [bytes[p]];
      left := left - 1;
      p := p + 1;
    }
  }

  /** The string goes on over all that was read of its page. */
  lemma StrMore(m: State, r: nat, who: map<nat, nat>, a: nat, dst: seq<nat>, out: seq<nat>)
    requires Open(m, r, who) && Loaded(m, r, a, dst) && Access(m, r, a + |dst|) && NoNul(dst) && NoNul(out)
    requires (|dst| == 0 || (a + |dst|) % PGSIZE == 0) && (a + |dst|) % PGSIZE + |out| <= PGSIZE
    requires var p, off := PageOf(m, r, (a + |dst|) / PGSIZE), (a + |dst|) % PGSIZE;
             p in m.mem && IsData(m.mem[p]) && out == m.mem[p].bytes[off..off + |out|]
    ensures Loaded(m, r, a, dst + out) && NoNul(dst + out)
  {
    hide State.Inv, State.LeafPte, PageOf, Loaded, Access;
    LoadedStep(m, r, who, a, dst, |out|);
  }

  /** A NUL behind the bytes read ends the string. */
  lemma StrFound(m: State, r: nat, who: map<nat, nat>, a: nat, dst: seq<nat>, out: seq<nat>)
    requires Open(m, r, who) && Loaded(m, r, a, dst) && Access(m, r, a + |dst|) && NoNul(dst) && NoNul(out)
    requires (|dst| == 0 || (a + |dst|) % PGSIZE == 0) && (a + |dst|) % PGSIZE + |out| < PGSIZE
    requires var p, off := PageOf(m, r, (a + |dst|) / PGSIZE), (a + |dst|) % PGSIZE;
             && p in m.mem && IsData(m.mem[p]) && out == m.mem[p].bytes[off..off + |out|]
             && m.mem[p].bytes[off + |out|] == 0
    ensures Loaded(m, r, a, dst + out + [0]) && Ends(m, r, a, |dst + out|)
  {
    hide State.Inv, State.LeafPte, PageOf, Loaded, Access;
    var p, off := PageOf(m, r, (a + |dst|) / PGSIZE), (a + |dst|) % PGSIZE;
    LoadedStep(m, r, who, a, dst, |out| + 1);
    assert m.mem[p].bytes[off..off + |out| + 1] == out + [0];
    assert dst + (out + [0]) == dst + out + [0];
    EndFound(m, r, a, dst + out);
  }

  lemma PageEnd(va: nat, n: nat)
    requires va % PGSIZE + n <= PGSIZE
    ensures va % PGSIZE + n == PGSIZE ==> va / PGSIZE * PGSIZE + PGSIZE == va + n && (va + n) % PGSIZE == 0
  {
  }

  /** copyinstr (kernel/vm.c:398-435) succeeds exactly when a NUL lies within `max` bytes before any page
      out of reach, and then returns the string with its NUL. */
  method Copyinstr(k: Memory, r: nat, srcva: nat, max: nat, ghost who: map<nat, nat>) returns (ret: int, dst: seq<nat>)
    requires Open(k.V(), r, who)
    modifies k
    ensures k.V() == old(k.V()) && r in k.trees && (ret == 0 || ret == -1)
    ensures ret == 0 <==> exists n: nat :: n < max && Ends(k.V(), r, srcva, n)
    ensures ret == 0 ==> |dst| > 0 && Loaded(k.V(), r, srcva, dst) && Ends(k.V(), r, srcva, |dst| - 1)
  {
    hide State.Inv, State.LeafPte, PageOf, Loaded, Ends;
    ghost var m := k.V();
    var va, left := srcva, max;
    dst := [];
    LoadedNone(m, r, srcva);
    while left > 0
      invariant k.V() == m && Loaded(m, r, srcva, dst) && NoNul(dst) && left == max - |dst| >= 0
      invariant left > 0 ==> va == srcva + |dst| && (|dst| == 0 || va % PGSIZE == 0)
    {
      var p := Walkaddr(k, r, va / PGSIZE * PGSIZE);
      if p == 0 {
        NoEnd(m, r, srcva, dst, max);
        return -1, dst;
      }
      var off := va % PGSIZE;
      var n := if PGSIZE - off > left then left else PGSIZE - off;
      LoadedStep(m, r, who, srcva, dst, 0);
      var out, gotNull := CopyStr(k.mem[p].bytes, off, n);
      if gotNull {
        StrFound(m, r, who, srcva, dst, out);
        return 0, dst + out + [0];
      }
      StrMore(m, r, who, srcva, dst, out);
      PageEnd(va, n);
      dst := dst + out;
      left := left - n;
      va := va / PGSIZE * PGSIZE + PGSIZE;
    }
    NoEnd(m, r, srcva, dst, max);
    ret := -1;
  }

  lemma EndFound(m: State, r: nat, a: nat, dst: seq<nat>)
    requires r in m.trees && Loaded(m, r, a, dst + [0]) && NoNul(dst)
    ensures Ends(m, r, a, |dst|)
  {
    var full := dst + [0];
    assert LoadedAt(m, r, a, full, |dst|) && a + |full| == a + |dst| + 1;
    forall x: nat | a <= x < a + |dst| ensures Byte(m, r, x) != 0 {
      assert LoadedAt(m, r, a, full, x - a) && full[x - a] == dst[x - a];
    }
  }

  /** No string can end in bytes without NUL, or beyond a page out of reach. */
  lemma NoEnd(m: State, r: nat, a: nat, dst: seq<nat>, max: nat)
    requires r in m.trees && Loaded(m, r, a, dst) && NoNul(dst) && (|dst| >= max || !Access(m, r, a + |dst|))
    ensures forall n: nat :: n < max ==> !Ends(m, r, a, n)
  {
    var next := Access(m, r, a + |dst|);
    forall n: nat | n < max ensures !Ends(m, r, a, n) {
      if n < |dst| { assert LoadedAt(m, r, a, dst, n) && dst[n] in dst; }
      assert Ends(m, r, a, n) && |dst| <= n ==> next;
    }
  }

  /** PTE_A. */
  predicate Accessed(pte: nat) { pte / 64 % 2 == 1 }

  function Unaccess(pte: nat): (out: nat)
    ensures IsValid(out) == IsValid(pte) && IsUser(out) == IsUser(pte) && Ppn(out) == Ppn(pte) && !Accessed(out)
    ensures forall j: nat | j != 6 :: Bit(out, j) <==> Bit(pte, j)
  {
    if Accessed(pte) then UnaccessArith(pte - 64, pte / 64 / 2, pte % 64); UnaccessBits(pte); pte - 64 else pte
  }

  lemma UnaccessBits(pte: nat)
    requires Accessed(pte)
    ensures pte >= 64 && forall j: nat | j != 6 :: Bit(pte - 64, j) <==> Bit(pte, j)
  {
    hide Bit, ClearBit, Pow2;
    BitSix(pte);
    ClearBitIs(pte, 6);
    forall j: nat | j != 6 ensures Bit(pte - 64, j) <==> Bit(pte, j) { ClearBitAt(pte, 6, j); }
  }

  lemma UnaccessArith(out: nat, h: nat, l: nat)
    requires l < 64 && out == 128 * h + l
    ensures out % 2 == (out + 64) % 2 && out / 64 == 2 * h
    ensures out / 16 % 2 == (out + 64) / 16 % 2 && out / 1024 == (out + 64) / 1024
  {
    Unaccess64(h, l);
    Unaccess16(h, l / 16, l % 16);
    assert 16 * (l / 16) + l % 16 == l;
  }

  lemma Unaccess16(h: nat, u: nat, b: nat)
    requires b < 16
    ensures (128 * h + (16 * u + b)) / 16 % 2 == (128 * h + (16 * u + b) + 64) / 16 % 2
  {
    Over16(8 * h + u, b);
    Over16(8 * h + u + 4, b);
  }

  lemma Over16(q: nat, b: nat)
    requires b < 16
    ensures (16 * q + b) / 16 == q
  {
  }

  lemma Unaccess64(h: nat, l: nat)
    requires l < 64
    ensures (128 * h + l) / 1024 == h / 8 == (128 * h + l + 64) / 1024 && (128 * h + l) / 64 == 2 * h
  {
    var q, s := h / 8, h % 8;
    assert h == 8 * q + s;
    assert 128 * h + l == 1024 * q + (128 * s + l);
  }

  ghost predicate ScannedAt(m: State, m': State, r: nat, a: nat, n: nat, w: nat)
    requires r in m.trees && r in m'.trees
  {
    m'.LeafPte(r, w) == if a <= w < a + n then Unaccess(m.LeafPte(r, w)) else m.LeafPte(r, w)
  }

  /** From `m` to `m'` the accessed bits of the pages [a, a+n) are cleared, nothing else changed. */
  ghost predicate Scanned(m: State, m': State, r: nat, a: nat, n: nat) {
    Kept(m, m', r) && m'.free == m.free && m'.owner == m.owner && m'.trees == m.trees && forall w: nat ::
        ScannedAt(m, m', r, a, n, w)
  }

  lemma ScannedNone(m: State, r: nat, a: nat)
    requires m.Inv() && r in m.trees
    ensures Scanned(m, m, r, a, 0)
  {
    KeptRefl(m, r);
    hide Kept, State.Inv, State.LeafPte;
    forall w: nat ensures ScannedAt(m, m, r, a, 0, w) {}
  }

  lemma ScannedSkip(m: State, m1: State, r: nat, a: nat, n: nat)
    requires Scanned(m, m1, r, a, n) && r in m1.trees && !Accessed(m1.LeafPte(r, a + n))
    ensures Scanned(m, m1, r, a, n + 1)
  {
    hide Kept, State.Inv, State.LeafPte;
    var k := n + 1;
    forall w: nat ensures ScannedAt(m, m1, r, a, k, w) { assert ScannedAt(m, m1, r, a, n, w); }
  }

  lemma MayUnaccess(m: State, r: nat, v: nat)
    requires m.Inv() && r in m.trees
    ensures MaySet(m, r, v, Unaccess(m.LeafPte(r, v)))
  {
    hide State.Inv, State.LeafPte;
    if !IsValid(m.LeafPte(r, v)) { NotLeaf(m, r, v); }
  }

  lemma ScannedStep(m: State, m1: State, r: nat, a: nat, n: nat)
    requires Scanned(m, m1, r, a, n) && r in m1.trees && a + n < MAXVPN && Key(0, (a + n) / ENTRIES) in m1.trees[r]
    ensures m1.Inv() && m1.NodeAt(r, Key(0, (a + n) / ENTRIES))
    ensures Scanned(m, m1.SetLeaf(r, a + n, Unaccess(m1.LeafPte(r, a + n))), r, a, n + 1)
  {
    hide Kept, State.Inv, State.LeafPte, Unaccess;
    KeptFacts(m, m1, r);
    var v, pte := a + n, Unaccess(m1.LeafPte(r, a + n));
    MayUnaccess(m1, r, v);
    SetLeafKept(m1, r, v, pte);
    var m2 := m1.SetLeaf(r, v, pte);
    KeptTrans(m, m1, m2, r);
    var k := n + 1;
    assert ScannedAt(m, m1, r, a, n, v);
    forall w: nat ensures ScannedAt(m, m2, r, a, k, w) { assert ScannedAt(m, m1, r, a, n, w); }
  }

  lemma ScannedOpen(m: State, m': State, r: nat, a: nat, n: nat, who: map<nat, nat>)
    requires Open(m, r, who) && Scanned(m, m', r, a, n)
    ensures Open(m', r, who)
    ensures forall x: nat :: Access(m', r, x) == Access(m, r, x)
    ensures forall x: nat :: Access(m, r, x) ==> Byte(m', r, x) == Byte(m, r, x)
  {
    hide State.Inv, State.LeafPte, Ppn;
    forall v: nat ensures OpenAt(m', r, who, v) && PageOf(m', r, v) == PageOf(m, r, v)
      ensures PageOf(m, r, v) != 0 ==> m'.mem[PageOf(m, r, v)] == m.mem[PageOf(m, r, v)]
    {
      assert OpenAt(m, r, who, v) && ScannedAt(m, m', r, a, n, v);
      if PageOf(m, r, v) != 0 { assert KeptAt(m, m', r, PageOf(m, r, v)); }
    }
  }

  /** The mask of the first `n` pages from `a` on. */
  ghost predicate MaskAt(m: State, r: nat, a: nat, n: nat, mask: nat, i: nat)
    requires r in m.trees
  {
    Bit(mask, i) <==> i < n && Accessed(m.LeafPte(r, a + i))
  }

  ghost predicate IsMask(m: State, r: nat, a: nat, n: nat, mask: nat)
    requires r in m.trees
  {
    mask < Pow2(32) && forall i: nat :: MaskAt(m, r, a, n, mask, i)
  }

  lemma MaskStep(m: State, m1: State, r: nat, a: nat, n: nat, mask: nat)
    requires Scanned(m, m1, r, a, n) && IsMask(m, r, a, n, mask) && n < 32 && r in m1.trees
    ensures Accessed(m1.LeafPte(r, a + n)) ==> IsMask(m, r, a, n + 1, SetBit(mask, n))
    ensures !Accessed(m1.LeafPte(r, a + n)) ==> IsMask(m, r, a, n + 1, mask)
  {
    hide Kept, State.Inv, State.LeafPte, Accessed, SetBit, Pow2, Bit;
    assert ScannedAt(m, m1, r, a, n, a + n);
    BitBound(mask, n, 32);
    var c, set_ := n + 1, SetBit(mask, n);
    forall i: nat ensures Accessed(m1.LeafPte(r, a + n)) ==> MaskAt(m, r, a, c, set_, i)
      ensures !Accessed(m1.LeafPte(r, a + n)) ==> MaskAt(m, r, a, c, mask, i)
    {
      SetBitAt(mask, n, i);
      assert MaskAt(m, r, a, n, mask, i);
    }
  }

  lemma MaskNone(m: State, r: nat, a: nat)
    requires r in m.trees
    ensures IsMask(m, r, a, 0, 0)
  {
    forall i: nat ensures MaskAt(m, r, a, 0, 0, i) { NoBits(i); }
  }

  /** pageaccess (kernel/vm.c:463-478) for at most 32 pages that begin below MAXVA: bit i of the mask it stores at
      `maskaddr` is the accessed bit of page i, and exactly these bits are cleared. */
  method Pageaccess(k: Memory, r: nat, base: nat, len: int, maskaddr: nat, ghost who: map<nat, nat>)
    returns (ret: int, ghost mask: nat, ghost mid: State, ghost n: nat)
    requires Open(k.V(), r, who) && len <= 32 && (len > 0 ==> base + (len - 1) * PGSIZE < MAXVA)
    modifies k
    ensures r in old(k.trees) && IsMask(old(k.V()), r, base / PGSIZE, if len < 0 then 0 else len, mask)
    ensures Scanned(old(k.V()), mid, r, base / PGSIZE, if len < 0 then 0 else len)
    ensures ret == 0 || ret == -1
    ensures ret == 0 <==> Reach(old(k.V()), r, maskaddr, maskaddr + 4)
    ensures Stored(mid, k.V(), r, maskaddr, Bytes4(mask), n) && (ret == 0 ==> n == 4)
  {
    hide State.Inv, State.LeafPte, PageOf, Stored, Scanned, IsMask, Accessed, SetBit, Unaccess, Bytes4;
    ghost var m0 := k.V();
    var bits := 0;
    ghost var a := base / PGSIZE;
    ScannedNone(m0, r, a);
    MaskNone(m0, r, a);
    var i := 0;
    while i < len
      invariant 0 <= i && (i <= len || i == 0)
      invariant r in k.trees && Scanned(m0, k.V(), r, a, i) && IsMask(m0, r, a, i, bits)
    {
      ghost var m1 := k.V();
      ScannedFacts(m0, m1, r, a, i);
      MaskStep(m0, m1, r, a, i, bits);
      var target := base + i * PGSIZE;
      assert target / PGSIZE == a + i;
      var found, pt, idx := k.Walk(r, target, false);
      NoTable(m1, r, a + i);
      if found { LeafEntry(m1, r, a + i); }
      if found && Accessed(k.mem[pt].ptes[idx]) {
        ScannedStep(m0, m1, r, a, i);
        bits := SetBit(bits, i);
        k.mem := k.mem[pt := Table(k.mem[pt].ptes[idx := Unaccess(k.mem[pt].ptes[idx])])];
        assert k.V() == m1.SetLeaf(r, a + i, Unaccess(m1.LeafPte(r, a + i)));
      } else {
        ScannedSkip(m0, m1, r, a, i);
      }
      i := i + 1;
    }
    mask, mid := bits, k.V();
    ScannedOpen(m0, mid, r, a, i, who);
    ret, n := Copyout(k, r, maskaddr, Bytes4(bits), who);
  }

  lemma ScannedFacts(m: State, m': State, r: nat, a: nat, n: nat)
    requires Scanned(m, m', r, a, n)
    ensures m'.Inv() && r in m'.trees
  {
  }

  lemma NoTable(m: State, r: nat, v: nat)
    requires m.Inv() && r in m.trees
    ensures Key(0, v / ENTRIES) !in m.trees[r] ==> !Accessed(m.LeafPte(r, v))
  {
  }
}
