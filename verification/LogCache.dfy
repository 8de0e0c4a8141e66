/** The buffer cache as the log uses it: which buffers hold logged blocks, which the committing process uses,
    and what other processes may do to the cache meanwhile. */
module LogCache {
  import opened Basics
  import opened Blocks
  import opened LogSpec
  import opened BufferCache

  /** A logged block is cached and up to date. */
  ghost predicate PinAt(v: View, b: int)
    requires v.Shaped()
  {
    0 <= b < |v.disk| && b in v.where && v.where[b] < NBUF && v.buf[v.where[b]].valid
  }

  /** Each logged block is cached, up to date and pinned once, whatever processes use the cache. */
  ghost predicate Pinned(v: View, lh: seq<int>) {
    && v.Ok()
    && (forall i: nat | i < NBUF :: PinCount(v, lh, i))
    && (forall b | b in lh :: PinAt(v, b))
  }

  ghost predicate PinCount(v: View, lh: seq<int>, i: nat)
    requires v.Shaped() && i < NBUF
  {
    v.pins[i] == if v.buf[i].dev == ROOTDEV && v.buf[i].blockno in lh then 1 else 0
  }

  /** Pinning the buffer of a block not logged yet, and logging it. */
  lemma PinnedAppend(v: View, w: View, lh: seq<int>, i: nat)
    requires Pinned(v, lh) && w.Ok() && i < NBUF && v.buf[i].refcnt > 0 && v.buf[i].valid && v.buf[i].blockno !in lh
    requires w == v.SetBuf(i, v.buf[i].(refcnt := v.buf[i].refcnt + 1)).(pins := v.pins[i := v.pins[i] + 1])
    ensures Pinned(w, lh + [v.buf[i].blockno])
  {
    UsedBuf(v, i);
    var lh' := lh + [v.buf[i].blockno];
    forall j: nat | j < NBUF ensures PinCount(w, lh', j) {
      assert PinCount(v, lh, j);
      if v.buf[j].dev == ROOTDEV && v.buf[j].blockno == v.buf[i].blockno { OneBufferPerBlock(v, i, j); }
    }
    forall b | b in lh' ensures PinAt(w, b) { if b in lh { assert PinAt(v, b); } }
  }

  /** Recycling an unused buffer for block `b` leaves every logged block where it was, with the same
      contents: write_log reads what log_write recorded. */
  lemma PinnedSurvivesRecycle(v: View, lh: seq<int>, i: nat, b: nat, p: nat)
    requires Pinned(v, lh) && i < NBUF && v.buf[i].refcnt == 0 && b < |v.disk| && b !in v.where
    ensures var w := v.Recycle(i, b).AddUser(i, p);
            Pinned(w, lh) && forall c | c in lh :: c in v.where && c in w.where && v.where[c] < NBUF
                                && w.where[c] == v.where[c] && w.buf[w.where[c]] == v.buf[v.where[c]]
  {
    var w := v.Recycle(i, b).AddUser(i, p);
    RecycleOk(v, i, b, p);
    assert v.BufOk(i);
    forall c | c in lh ensures c in v.where { assert PinAt(v, c); }
    forall c | c in lh
      ensures c in v.where && c in w.where && v.where[c] < NBUF && w.where[c] == v.where[c]
      ensures w.buf[w.where[c]] == v.buf[v.where[c]] && PinAt(w, c)
    {
      assert PinAt(v, c);
      assert v.BlockOk(c) && v.BufOk(v.where[c]) && PinCount(v, lh, v.where[c]);
    }
    forall j: nat | j < NBUF ensures PinCount(w, lh, j) {
      assert PinCount(v, lh, j);
    }
  }

  /** Buffer `i` is pinned once if its block is logged; process `p` is among its users if it is in `mine`, and
      holds its lock if it is in `held`. Other processes may use and lock any others. */
  ghost predicate BufAt(v: View, pinned: seq<int>, p: nat, mine: set<nat>, held: set<nat>, i: nat)
    requires v.Shaped() && i < NBUF
  {
    && PinCount(v, pinned, i)
    && (p in v.users[i] <==> i in mine)
    && (v.buf[i].holder == Some(p) <==> i in held)
  }

  /** Only logged blocks, and those `p` has locked, may differ from the disk. */
  ghost predicate DirtyAt(v: View, pinned: seq<int>, held: set<nat>, b: nat)
    requires v.Shaped() && b < |v.disk|
  {
    v.latest[b] != v.disk[b] ==> b in pinned || (b in v.where && v.where[b] in held)
  }

  /** While `p` commits: the blocks `pinned` are pinned, `p` uses the buffers `mine` and has locked `held`. */
  ghost predicate Using(v: View, pinned: seq<int>, p: nat, mine: set<nat>, held: set<nat>) {
    && v.Ok() && held <= mine && (forall i | i in mine :: i < NBUF)
    && (forall i: nat | i < NBUF :: BufAt(v, pinned, p, mine, held, i))
    && (forall b | b in pinned :: PinAt(v, b))
    && (forall b: nat | b < |v.disk| :: DirtyAt(v, pinned, held, b))
  }

  /** A commit may begin when no operation is outstanding: then nobody has changed a block without logging it. */
  lemma UsingStarts(v: View, lh: seq<int>, p: nat)
    requires Pinned(v, lh) && (forall i: nat | i < NBUF :: p !in v.users[i])
    requires forall b: nat | b < |v.disk| && v.latest[b] != v.disk[b] :: b in lh
    ensures Using(v, lh, p, {}, {})
  {
    forall i: nat | i < NBUF ensures BufAt(v, lh, p, {}, {}, i) { assert PinCount(v, lh, i) && v.BufOk(i); }
    forall b: nat | b < |v.disk| ensures DirtyAt(v, lh, {}, b) {}
  }

  lemma UsingAt(v: View, pinned: seq<int>, p: nat, mine: set<nat>, held: set<nat>, i: nat)
    requires Using(v, pinned, p, mine, held) && i < NBUF
    ensures v.Shaped() && v.BufOk(i) && BufAt(v, pinned, p, mine, held, i) && held <= mine
    ensures v.buf[i].refcnt > 0 ==> v.buf[i].blockno < |v.disk|
    ensures v.buf[i].refcnt > 0 && v.buf[i].valid ==> v.buf[i].data == v.latest[v.buf[i].blockno]
  {
    if v.buf[i].refcnt > 0 { UsedBuf(v, i); }
  }

  /** A block neither logged nor locked by `p` has its latest contents on disk. */
  lemma Clean(v: View, pinned: seq<int>, p: nat, mine: set<nat>, held: set<nat>, b: nat)
    requires Using(v, pinned, p, mine, held) && b < |v.disk| && b !in pinned
    requires b in v.where ==> v.where[b] !in held
    ensures v.latest[b] == v.disk[b]
  {
    assert DirtyAt(v, pinned, held, b);
  }

  /** A locked buffer is where its block is looked up, and holds its latest contents once it is valid. */
  lemma Held(v: View, pinned: seq<int>, p: nat, mine: set<nat>, held: set<nat>, i: nat)
    requires Using(v, pinned, p, mine, held) && i in mine
    ensures i < NBUF && v.buf[i].refcnt > 0 && v.buf[i].dev == ROOTDEV && p in v.users[i]
    ensures v.buf[i].holder == Some(p) <==> i in held
    ensures v.buf[i].blockno < |v.disk| && (v.buf[i].valid ==> v.buf[i].data == v.latest[v.buf[i].blockno])
    ensures v.buf[i].blockno in v.where && v.where[v.buf[i].blockno] == i
    ensures v.buf[i].blockno in pinned ==> v.buf[i].refcnt > 1 && v.pins[i] == 1
  {
    assert BufAt(v, pinned, p, mine, held, i) && v.BufOk(i);
    UsedBuf(v, i);
  }

  /** A change of buffer `i` that keeps its block: counts, users, the lock, or loading the contents. */
  lemma ChangedUsing(v: View, w: View, pinned: seq<int>, p: nat, mine: set<nat>, held: set<nat>, i: nat,
                     mine': set<nat>, held': set<nat>)
    requires Using(v, pinned, p, mine, held) && w.Ok() && i < NBUF
    requires w == v.(buf := v.buf[i := w.buf[i]], users := v.users[i := w.users[i]])
    requires w.buf[i].dev == v.buf[i].dev && w.buf[i].blockno == v.buf[i].blockno
    requires v.buf[i].valid ==> w.buf[i].valid
    requires (p in w.users[i] <==> i in mine') && (w.buf[i].holder == Some(p) <==> i in held') && held' <= mine'
    requires mine' - {i} == mine - {i} && held' - {i} == held - {i}
    requires v.buf[i].blockno < |v.disk|
    requires i in held && i !in held' && v.buf[i].blockno !in pinned ==>
               v.latest[v.buf[i].blockno] == v.disk[v.buf[i].blockno]
    ensures Using(w, pinned, p, mine', held')
  {
    assert forall j: nat | j != i :: (j in mine' <==> j in mine' - {i}) && (j in mine <==> j in mine - {i});
    assert forall j: nat | j != i :: (j in held' <==> j in held' - {i}) && (j in held <==> j in held - {i});
    forall j: nat | j < NBUF ensures BufAt(w, pinned, p, mine', held', j) { assert BufAt(v, pinned, p, mine, held, j); }
    forall c | c in pinned ensures PinAt(w, c) { assert PinAt(v, c); }
    forall c: nat | c < |w.disk| ensures DirtyAt(w, pinned, held', c) {
      assert DirtyAt(v, pinned, held, c) && v.BlockOk(c);
    }
    forall j | j in mine' ensures j < NBUF { assert j != i ==> j in mine; }
  }

  /** An unused buffer is given to block `b`, for `p` itself or for another process. */
  lemma RecycledUsing(v: View, pinned: seq<int>, p: nat, mine: set<nat>, held: set<nat>, i: nat, b: nat, q: nat)
    requires Using(v, pinned, p, mine, held) && i < NBUF && v.buf[i].refcnt == 0 && b < |v.disk| && b !in v.where
    ensures i !in mine
    ensures Using(v.Recycle(i, b).AddUser(i, q), pinned, p, if q == p then mine + {i} else mine, held)
  {
    var w, mine' := v.Recycle(i, b).AddUser(i, q), if q == p then mine + {i} else mine;
    RecycleOk(v, i, b, q);
    assert v.BufOk(i) && BufAt(v, pinned, p, mine, held, i);
    assert b in pinned ==> PinAt(v, b);
    forall c | c in pinned ensures PinAt(w, c) {
      assert PinAt(v, c) && v.BlockOk(c) && v.BufOk(v.where[c]) && BufAt(v, pinned, p, mine, held, v.where[c]);
    }
    forall j: nat | j < NBUF ensures BufAt(w, pinned, p, mine', held, j) {
      assert BufAt(v, pinned, p, mine, held, j);
    }
    forall c: nat | c < |w.disk| ensures DirtyAt(w, pinned, held, c) {
      assert DirtyAt(v, pinned, held, c) && v.BlockOk(c);
    }
  }

  /** New contents for a block whose buffer `p` has locked. */
  lemma ModifiedUsing(v: View, pinned: seq<int>, p: nat, mine: set<nat>, held: set<nat>, i: nat, data: Block)
    requires Using(v, pinned, p, mine, held) && i in held && i in mine && i < NBUF && v.buf[i].valid
    ensures v.buf[i].blockno < |v.disk|
    ensures var w := v.SetBuf(i, v.buf[i].(data := data)).(latest := v.latest[v.buf[i].blockno := data]);
            Using(w, pinned, p, mine, held)
  {
    Held(v, pinned, p, mine, held, i);
    ModifyOk(v, i, data);
    var w := v.SetBuf(i, v.buf[i].(data := data)).(latest := v.latest[v.buf[i].blockno := data]);
    forall j: nat | j < NBUF ensures BufAt(w, pinned, p, mine, held, j) { assert BufAt(v, pinned, p, mine, held, j); }
    forall c | c in pinned ensures PinAt(w, c) { assert PinAt(v, c); }
    forall c: nat | c < |w.disk| ensures DirtyAt(w, pinned, held, c) { assert DirtyAt(v, pinned, held, c); }
  }

  /** Its contents go to disk. */
  lemma WrittenUsing(v: View, pinned: seq<int>, p: nat, mine: set<nat>, held: set<nat>, i: nat)
    requires Using(v, pinned, p, mine, held) && i in held && i in mine && i < NBUF && v.buf[i].valid
    ensures v.buf[i].blockno < |v.disk|
    ensures Using(v.(disk := v.disk[v.buf[i].blockno := v.latest[v.buf[i].blockno]]), pinned, p, mine, held)
  {
    Held(v, pinned, p, mine, held, i);
    DiskWriteOk(v, i);
    var w := v.(disk := v.disk[v.buf[i].blockno := v.latest[v.buf[i].blockno]]);
    forall j: nat | j < NBUF ensures BufAt(w, pinned, p, mine, held, j) { assert BufAt(v, pinned, p, mine, held, j); }
    forall c | c in pinned ensures PinAt(w, c) { assert PinAt(v, c); }
    forall c: nat | c < |w.disk| ensures DirtyAt(w, pinned, held, c) { assert DirtyAt(v, pinned, held, c); }
  }

  /** Unpinning the first logged block, locked in buffer `i`. */
  lemma UnpinnedUsing(v: View, w: View, pinned: seq<int>, p: nat, mine: set<nat>, held: set<nat>, i: nat)
    requires Using(v, pinned, p, mine, held) && w.Ok() && i in held && i in mine && i < NBUF && v.buf[i].refcnt > 0
    requires pinned != [] && v.buf[i].blockno == pinned[0] && pinned[0] !in pinned[1..] && v.pins[i] > 0
    requires w == v.SetBuf(i, v.buf[i].(refcnt := v.buf[i].refcnt - 1)).(pins := v.pins[i := v.pins[i] - 1])
    ensures Using(w, pinned[1..], p, mine, held)
  {
    Held(v, pinned, p, mine, held, i);
    assert pinned == [pinned[0]] + pinned[1..];
    forall j: nat | j < NBUF ensures BufAt(w, pinned[1..], p, mine, held, j) {
      assert BufAt(v, pinned, p, mine, held, j);
      if v.buf[j].dev == ROOTDEV && v.buf[j].blockno == pinned[0] { OneBufferPerBlock(v, i, j); }
    }
    forall c | c in pinned[1..] ensures PinAt(w, c) { assert PinAt(v, c); }
    forall c: nat | c < |w.disk| ensures DirtyAt(w, pinned[1..], held, c) { assert DirtyAt(v, pinned, held, c); }
  }

  /** The buffers `mine` keep their blocks, and those of `held` stay valid. */
  ghost predicate SameBufs(v: View, w: View, mine: set<nat>, held: set<nat>) {
    && |v.buf| == |w.buf| == NBUF
    && (forall i | i in mine && i < NBUF :: w.buf[i].blockno == v.buf[i].blockno)
    && (forall i | i in held && i < NBUF :: v.buf[i].valid ==> w.buf[i].valid)
  }

  /** From `v` to `w` other processes were at work: the contents of all blocks stay, and what `p` uses. */
  ghost predicate Shared(v: View, w: View, mine: set<nat>, held: set<nat>) {
    w.disk == v.disk && w.latest == v.latest && SameBufs(v, w, mine, held)
  }

  /** What another process does to the cache while it reads: one critical section of bread or brelse. */
  datatype Act =
    Get(q: nat, b: nat) | Grab(q: nat, i: nat) | Load(q: nat, i: nat) | Let(q: nat, i: nat) | Put(q: nat, i: nat)

  /** The act `a`, unless it is one of `p` or cannot happen now. */
  method Other(cache: Cache, p: nat, a: Act, ghost pinned: seq<int>, ghost mine: set<nat>, ghost held: set<nat>)
    requires cache.Valid() && Using(cache.V(), pinned, p, mine, held)
    modifies cache
    ensures cache.Valid() && Using(cache.V(), pinned, p, mine, held)
    ensures Shared(old(cache.V()), cache.V(), mine, held) && cache.trace == old(cache.trace)
  {
    hide ListOk, View.Ok, Using;
    ghost var v := cache.V();
    UsingAt(v, pinned, p, mine, held, 0);
    if a.q == p {
      return;
    }
    if a.Get? {
      OtherGet(cache, p, a.q, a.b, pinned, mine, held);
      return;
    }
    var i := a.i;
    if i >= NBUF {
      return;
    }
    UsingAt(v, pinned, p, mine, held, i);
    if a.Grab? && a.q in cache.users[i] && cache.buf[i].holder == None {
      cache.Lock(a.q, i);
    } else if a.Load? && cache.buf[i].holder == Some(a.q) {
      cache.Fill(a.q, i);
    } else if a.Let? && cache.buf[i].holder == Some(a.q) {
      cache.Unlock(a.q, i);
    } else if a.Put? && a.q in cache.users[i] && cache.buf[i].holder != Some(a.q) {
      OtherPut(v, pinned, p, mine, held, i, a.q);
      cache.Drop(a.q, i);
    } else {
      return;
    }
    ChangedUsing(v, cache.V(), pinned, p, mine, held, i, mine, held);
  }

  /** A buffer that another process gives up for good holds nothing that the disk lacks. */
  lemma OtherPut(v: View, pinned: seq<int>, p: nat, mine: set<nat>, held: set<nat>, i: nat, q: nat)
    requires Using(v, pinned, p, mine, held) && i < NBUF && q in v.users[i] && q != p
    ensures v.buf[i].blockno < |v.disk|
    ensures v.buf[i].refcnt == 1 ==> v.latest[v.buf[i].blockno] == v.disk[v.buf[i].blockno]
  {
    assert v.BufOk(i);
    UsedBuf(v, i);
    assert BufAt(v, pinned, p, mine, held, i) && DirtyAt(v, pinned, held, v.buf[i].blockno);
    if i in mine {
      assert {p, q} <= v.users[i];
      SubsetSize({p, q}, v.users[i]);
    }
  }

  method OtherGet(cache: Cache, p: nat, q: nat, b: nat, ghost pinned: seq<int>, ghost mine: set<nat>,
                  ghost held: set<nat>)
    requires cache.Valid() && Using(cache.V(), pinned, p, mine, held) && q != p
    modifies cache
    ensures cache.Valid() && Using(cache.V(), pinned, p, mine, held)
    ensures Shared(old(cache.V()), cache.V(), mine, held) && cache.trace == old(cache.trace)
  {
    ghost var v := cache.V();
    if b >= |cache.disk| {
      return;
    }
    assert v.BlockOk(b);
    var found := cache.FindCached(b);
    if found.Some? && q in cache.users[found.value] {
      return;
    }
    var r := cache.Bget(q, b);
    if r.Some? {
      if found.Some? {
        assert BufAt(v, pinned, p, mine, held, r.value);
        ChangedUsing(v, cache.V(), pinned, p, mine, held, r.value, mine, held);
      } else {
        RecycledUsing(v, pinned, p, mine, held, r.value, b, q);
      }
    }
  }

  /** The buffers of the logged blocks. */
  ghost function PinBufs(v: View, lh: seq<int>): set<nat>
    requires v.Shaped()
  {
    set i: nat | i < NBUF && v.buf[i].dev == ROOTDEV && v.buf[i].blockno in lh
  }

  /** The buffers that processes use for blocks not logged. */
  ghost function InUse(v: View, lh: seq<int>): set<nat>
    requires v.Shaped()
  {
    set i: nat | i < NBUF && v.users[i] != {} && v.buf[i].blockno !in lh
  }

  lemma {:induction false} PinBufsCount(v: View, lh: seq<int>)
    requires v.Ok() && AllDiffer(lh) && forall b | b in lh :: PinAt(v, b)
    ensures |PinBufs(v, lh)| == |lh|
    decreases |lh|
  {
    if lh == [] {
      assert PinBufs(v, lh) == {};
    } else {
      var n := |lh| - 1;
      var b := lh[n];
      forall t: nat | t < n ensures lh[..n][t] != b { assert Differ(lh, t, n); }
      assert AllDiffer(lh[..n]) by {
        forall s: nat, t: nat | s < t < n ensures Differ(lh[..n], s, t) { assert Differ(lh, s, t); }
      }
      PinBufsCount(v, lh[..n]);
      assert PinAt(v, b) && v.BlockOk(b) && b !in lh[..n] && lh == lh[..n] + [b];
      forall i: nat | i < NBUF && v.buf[i].dev == ROOTDEV && v.buf[i].blockno == b ensures i == v.where[b] {
        assert v.BufOk(i);
      }
      assert PinBufs(v, lh) == PinBufs(v, lh[..n]) + {v.where[b]};
    }
  }

  /** bget finds a buffer to recycle exactly when logged blocks and other blocks in use are fewer than NBUF. */
  lemma UnusedExact(v: View, lh: seq<int>)
    requires Pinned(v, lh) && AllDiffer(lh)
    ensures v.HasUnused() <==> |lh| + |InUse(v, lh)| < NBUF
  {
    hide View.Ok, Pinned, View.HasUnused, AllDiffer;
    PinnedShape(v, lh);
    PinBufsCount(v, lh);
    var busy := PinBufs(v, lh) + InUse(v, lh);
    assert PinBufs(v, lh) !! InUse(v, lh);
    assert |busy| == |lh| + |InUse(v, lh)|;
    forall i: nat | i < NBUF ensures v.buf[i].refcnt > 0 <==> i in busy { BusyIff(v, lh, i); }
    OneFree(v, busy, |v.buf|);
  }

  lemma PinnedShape(v: View, lh: seq<int>)
    requires Pinned(v, lh)
    ensures v.Ok() && v.Shaped() && forall b | b in lh :: PinAt(v, b)
  {
  }

  lemma BusyIff(v: View, lh: seq<int>, i: nat)
    requires Pinned(v, lh) && i < NBUF
    ensures v.Shaped() && (v.buf[i].refcnt > 0 <==> i in PinBufs(v, lh) + InUse(v, lh))
  {
    assert v.BufOk(i) && PinCount(v, lh, i);
  }

  lemma OneFree(v: View, busy: set<nat>, n: nat)
    requires |v.buf| == n && forall i: nat | i < n :: v.buf[i].refcnt > 0 <==> i in busy
    requires forall i | i in busy :: i < n
    ensures v.HasUnused() <==> |busy| < n
  {
    var all := Below(n);
    SubsetSize(busy, all);
    if |busy| >= n {
      SubsetAll(busy, all);
    } else {
      assert all * busy == busy && |all - busy| > 0;
      var i :| i in all - busy;
      assert v.buf[i].refcnt == 0;
    }
  }

  function Zero(): Block { seq(WORDS, _ => 0) }

  function BufOf(b: int): nat
    requires b >= 40
  {
    b - 40
  }

  /** Fewer than NBUF logged blocks are not enough: with NBUF - 1 of them and one reader of another block, which
      needs no transaction (kernel/file.c:119-126), bget finds nothing, and `p`, about to commit, panics. */
  lemma ReaderCrowds(p: nat, q: nat) returns (v: View, lh: seq<int>)
    requires p != q
    ensures Using(v, lh, p, {}, {}) && AllDiffer(lh) && |lh| == NBUF - 1 && !v.HasUnused()
    ensures |v.disk| == 100 && forall i: nat | i < NBUF :: v.users[i] == if i == NBUF - 1 then {q} else {}
    ensures forall b | b in v.where :: 40 <= b < 40 + NBUF
  {
    var disk := seq(100, _ => Zero());
    lh := seq(NBUF - 1, i => 40 + i);
    v := View(seq(NBUF, i requires 0 <= i => Buf(true, ROOTDEV, 40 + i, None, 1, Zero())),
              seq(NBUF, i => if i == NBUF - 1 then {q} else {}),
              seq(NBUF, i => if i < NBUF - 1 then 1 else 0),
              map b: int | 40 <= b < 40 + NBUF :: BufOf(b), disk, disk);
    forall i: nat | i < NBUF ensures v.BufOk(i) && BufAt(v, lh, p, {}, {}, i) {
      assert i < NBUF - 1 ==> lh[i] == 40 + i;
    }
    forall b: nat | b < |v.disk| ensures v.BlockOk(b) && DirtyAt(v, lh, {}, b) {}
    forall b | b in lh ensures PinAt(v, b) {}
  }
}
