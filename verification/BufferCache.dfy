/** The buffer cache of kernel/bio.c.

    The cache holds NBUF buffers on a circular list ordered by last use. Each method below is one
    critical section of the C code (under `bcache.lock`, or under the buffer's sleep lock), so
    every interleaving of processes is a sequence of these calls. Ghost state records what the
    cache stands for: `latest` is the block map its clients see. */
module BufferCache {
  import opened Basics
  import opened Blocks
  import opened RingList

  const NBUF: nat := 30
  const HEAD: nat := NBUF
  const ROOTDEV: nat := 1

  /** struct buf; `holder` is the process holding the buffer's sleep lock, if any. */
  datatype Buf = Buf(valid: bool, dev: nat, blockno: nat, holder: Option<nat>, refcnt: nat, data: Block)

  /** The list is a ring through every buffer, sorted by last release to zero. */
  ghost predicate ListOk(next: seq<nat>, prev: seq<nat>, order: seq<nat>, stamp: seq<int>, clock: int) {
    && IsRing(next, prev, order, HEAD)
    && |order| == NBUF
    && (forall i: nat | i < NBUF :: i in order)
    && |stamp| == NBUF
    && (forall i | 0 <= i < NBUF :: stamp[i] < clock)
    && (forall j, k | 0 <= j < k < |order| :: stamp[order[j]] > stamp[order[k]])
  }

  /** The buffers together with what they stand for. */
  datatype View = View(
    buf: seq<Buf>,
    users: seq<set<nat>>,    // processes between bget and brelse
    pins: seq<nat>,          // bpin calls not yet undone
    where: map<int, nat>,    // which buffer caches a block of ROOTDEV
    latest: seq<Block>,      // the block map clients see
    disk: seq<Block>)
  {
    ghost predicate Shaped() {
      && |buf| == NBUF && |users| == NBUF && |pins| == NBUF
      && |latest| == |disk|
      && (forall b | b in where :: 0 <= b < |disk|)
    }

    /** Every process using a buffer and every pin is counted once; the lock holder is a user; and
        a block of the device sits in one buffer only. Unused buffers may still carry device 0. */
    ghost predicate BufOk(i: nat)
      requires Shaped() && i < NBUF
    {
      && buf[i].refcnt == |users[i]| + pins[i]
      && (buf[i].holder.Some? ==> buf[i].holder.value in users[i])
      && (buf[i].dev == ROOTDEV ==> buf[i].blockno in where && where[buf[i].blockno] == i)
      && (buf[i].dev != ROOTDEV ==> buf[i].dev == 0 && buf[i].refcnt == 0)
    }

    /** A cached copy is the latest contents, and a block whose latest contents are not on disk
        is cached and in use. */
    ghost predicate BlockOk(b: nat)
      requires Shaped() && b < |disk|
    {
      && (b in where ==> where[b] < NBUF && buf[where[b]].dev == ROOTDEV && buf[where[b]].blockno == b)
      && (b in where && buf[where[b]].valid ==> latest[b] == buf[where[b]].data)
      && (latest[b] != disk[b] ==> b in where && buf[where[b]].valid && buf[where[b]].refcnt > 0)
    }

    ghost predicate Ok() {
      && Shaped()
      && (forall i: nat | i < NBUF :: BufOk(i))
      && (forall b: nat | b < |disk| :: BlockOk(b))
    }

    /** A buffer that bget may recycle exists. */
    ghost predicate HasUnused() {
      exists i :: 0 <= i < |buf| && buf[i].refcnt == 0
    }

    ghost function SetBuf(i: nat, x: Buf): View
      requires i < |buf|
    {
      this.(buf := buf[i := x])
    }

    ghost function AddUser(i: nat, p: nat): View
      requires i < |users|
    {
      this.(users := users[i := users[i] + {p}])
    }

    /** The view after the unused buffer `i` is given to block `b`. */
    ghost function Recycle(i: nat, b: nat): View
      requires Shaped() && i < NBUF
    {
      SetBuf(i, buf[i].(dev := ROOTDEV, blockno := b, valid := false, refcnt := 1))
      .(where := (if buf[i].dev == ROOTDEV then where - {buf[i].blockno} else where)[b := i])
    }
  }

  /** A used buffer is where its block is looked up; in particular no block is cached twice. */
  lemma UsedBuf(v: View, i: nat)
    requires v.Ok() && i < NBUF && v.buf[i].refcnt > 0
    ensures v.buf[i].dev == ROOTDEV && v.buf[i].blockno < |v.disk|
    ensures v.buf[i].blockno in v.where && v.where[v.buf[i].blockno] == i
    ensures v.buf[i].valid ==> v.buf[i].data == v.latest[v.buf[i].blockno]
  {
    assert v.BufOk(i);
    assert v.BlockOk(v.buf[i].blockno);
  }

  /** No two buffers hold the same block of the device (kernel/bio.c:65-89). */
  lemma OneBufferPerBlock(v: View, i: nat, j: nat)
    requires v.Ok() && i < NBUF && j < NBUF
    requires v.buf[i].dev == ROOTDEV && v.buf[j].dev == ROOTDEV && v.buf[i].blockno == v.buf[j].blockno
    ensures i == j
  {
    assert v.BufOk(i) && v.BufOk(j);
  }

  /** Replacing buffer `i` of a used block by `x` keeps the view when `x` keeps the block, counts its
      users, and only gives up an unwritten block's contents when they are on disk. */
  lemma SetBufOk(v: View, i: nat, x: Buf, users: set<nat>, pins: nat)
    requires v.Ok() && i < NBUF && v.buf[i].dev == ROOTDEV
    requires x.dev == ROOTDEV && x.blockno == v.buf[i].blockno
    requires x.refcnt == |users| + pins && (x.holder.Some? ==> x.holder.value in users)
    requires x.blockno < |v.disk|
    requires x.valid ==> x.data == v.latest[x.blockno]
    requires v.latest[x.blockno] == v.disk[x.blockno] || (x.valid && x.refcnt > 0)
    ensures v.SetBuf(i, x).(users := v.users[i := users], pins := v.pins[i := pins]).Ok()
    ensures users == v.users[i] ==> v.users[i := users] == v.users
    ensures pins == v.pins[i] ==> v.pins[i := pins] == v.pins
  {
    var w := v.SetBuf(i, x).(users := v.users[i := users], pins := v.pins[i := pins]);
    forall j: nat | j < NBUF ensures w.BufOk(j) { assert v.BufOk(j); }
    forall b: nat | b < |w.disk| ensures w.BlockOk(b) { assert v.BlockOk(b); assert v.BufOk(i); }
  }

  /** Recycling an unused buffer keeps one buffer per block and loses no contents. */
  lemma RecycleOk(v: View, i: nat, b: nat, p: nat)
    requires v.Ok() && i < NBUF && v.buf[i].refcnt == 0
    requires b < |v.disk| && b !in v.where
    ensures v.Recycle(i, b).AddUser(i, p).Ok()
  {
    var w := v.Recycle(i, b).AddUser(i, p);
    assert v.BufOk(i) && v.users[i] == {};
    assert w.Shaped();
    forall j: nat | j < NBUF ensures w.BufOk(j) { assert v.BufOk(j); }
    forall c: nat | c < |w.disk| ensures w.BlockOk(c) { assert v.BlockOk(c); }
  }

  /** New latest contents, held in the block's buffer. */
  lemma ModifyOk(v: View, i: nat, data: Block)
    requires v.Ok() && i < NBUF && v.buf[i].valid && v.buf[i].refcnt > 0
    ensures v.buf[i].blockno < |v.disk|
    ensures v.SetBuf(i, v.buf[i].(data := data)).(latest := v.latest[v.buf[i].blockno := data]).Ok()
  {
    UsedBuf(v, i);
    var w := v.SetBuf(i, v.buf[i].(data := data)).(latest := v.latest[v.buf[i].blockno := data]);
    forall j: nat | j < NBUF ensures w.BufOk(j) { assert v.BufOk(j); }
    forall b: nat | b < |w.disk| ensures w.BlockOk(b) { assert v.BlockOk(b); assert v.BufOk(i); }
  }

  /** Writing a block's latest contents to disk. */
  lemma DiskWriteOk(v: View, i: nat)
    requires v.Ok() && i < NBUF && v.buf[i].valid && v.buf[i].refcnt > 0
    ensures v.buf[i].blockno < |v.disk|
    ensures v.(disk := v.disk[v.buf[i].blockno := v.buf[i].data]).Ok()
  {
    UsedBuf(v, i);
    var w := v.(disk := v.disk[v.buf[i].blockno := v.buf[i].data]);
    forall j: nat | j < NBUF ensures w.BufOk(j) { assert v.BufOk(j); }
    forall b: nat | b < |w.disk| ensures w.BlockOk(b) { assert v.BlockOk(b); }
  }

  /** A buffer moved to the front with a fresh stamp leaves the list sorted. */
  lemma MovedListOk(next: seq<nat>, prev: seq<nat>, order: seq<nat>, stamp: seq<int>, clock: int,
                    next': seq<nat>, prev': seq<nat>, order': seq<nat>, i: nat, k: nat)
    requires ListOk(next, prev, order, stamp, clock) && k < NBUF && order[k] == i
    requires order' == [i] + order[..k] + order[k + 1..] && IsRing(next', prev', order', HEAD)
    ensures ListOk(next', prev', order', stamp[i := clock], clock + 1)
  {
    forall x: nat | x < NBUF ensures x in order' {
      assert x in order;
      var j :| 0 <= j < |order| && order[j] == x;
      assert order'[if j < k then j + 1 else if j == k then 0 else j] == x;
    }
    assert forall j | 0 < j < NBUF :: order'[j] == order[if j <= k then j - 1 else j];
  }

  class Cache {
    var buf: seq<Buf>
    var next: seq<nat>
    var prev: seq<nat>
    var disk: seq<Block>

    ghost var order: seq<nat>        // buffers from most to least recently released
    ghost var clock: int
    ghost var stamp: seq<int>        // when brelse last dropped the buffer's count to zero
    ghost var where: map<int, nat>
    var users: seq<set<nat>>         // the processes between bget and brelse; the source does not record them
    ghost var pins: seq<nat>
    ghost var latest: seq<Block>
    ghost var trace: seq<Write>      // all block writes so far

    ghost function V(): View
      reads this
    {
      View(buf, users, pins, where, latest, disk)
    }

    ghost predicate Valid()
      reads this
    {
      ListOk(next, prev, order, stamp, clock) && V().Ok()
    }

    /** binit (kernel/bio.c:36-53): every buffer is zeroed and pushed on the list in turn. */
    constructor (initial: seq<Block>)
      ensures Valid()
      ensures disk == initial && latest == initial && trace == [] && where == map[]
      ensures forall i | 0 <= i < NBUF :: buf[i].refcnt == 0 && users[i] == {} && pins[i] == 0
    {
      var blank := Buf(false, 0, 0, None, 0, seq(WORDS, _ => 0));
      buf := seq(NBUF, _ => blank);
      disk, latest, trace := initial, initial, [];
      users, pins, where := seq(NBUF, _ => {}), seq(NBUF, _ => 0), map[];
      next, prev := seq(NBUF + 1, _ => HEAD), seq(NBUF + 1, _ => HEAD);
      order, clock, stamp := [], 0, seq(NBUF, i => i - NBUF);
      new;
      LinkAll();
      forall i: nat | i < NBUF ensures V().BufOk(i) {}
      forall b: nat | b < |disk| ensures V().BlockOk(b) {}
    }

    /** binit's loop (kernel/bio.c:44-52). */
    method LinkAll()
      requires next == seq(NBUF + 1, _ => HEAD) && prev == seq(NBUF + 1, _ => HEAD) && order == []
      requires stamp == seq(NBUF, i => i - NBUF) && clock == 0
      modifies this`next, this`prev, this`order
      ensures ListOk(next, prev, order, stamp, clock)
    {
      var b := 0;
      while b < NBUF
        invariant b <= NBUF
        invariant IsRing(next, prev, order, HEAD)
        invariant |order| == b
        invariant forall i | 0 <= i < b :: order[i] == b - 1 - i
      {
        PushFrontRing(next, prev, order, HEAD, b);
        next, prev := next[b := next[HEAD]], prev[b := HEAD];
        prev := prev[next[HEAD] := b];
        next := next[HEAD := b];
        order := [b] + order;
        b := b + 1;
      }
      forall i: nat | i < NBUF ensures i in order {
        assert order[NBUF - 1 - i] == i;
      }
    }

    /** bget's first scan, from the most recently used end (kernel/bio.c:66-73). */
    method FindCached(blockno: nat) returns (found: Option<nat>)
      requires Valid() && blockno < |disk|
      ensures found.Some? <==> blockno in where
      ensures found.Some? ==> found.value == where[blockno]
    {
      assert next[At(order, HEAD, 0)] == At(order, HEAD, 1);
      var b := next[HEAD];
      ghost var k: nat := 1;
      while b != HEAD
        invariant 1 <= k <= NBUF + 1 && b == At(order, HEAD, k)
        invariant blockno in where ==> where[blockno] !in order[..k - 1]
        decreases NBUF + 1 - k
      {
        assert b == order[k - 1];
        assert V().BlockOk(blockno);
        if buf[b].dev == ROOTDEV && buf[b].blockno == blockno {
          assert V().BufOk(b);
          return Some(b);
        }
        assert next[At(order, HEAD, k)] == At(order, HEAD, k + 1);
        b := next[b];
        k := k + 1;
      }
      assert V().BlockOk(blockno);
      assert order[..k - 1] == order;
      found := None;
    }

    /** bget's second scan, from the least recently used end (kernel/bio.c:77-88). */
    method FindUnused() returns (found: Option<nat>)
      requires Valid()
      ensures found.Some? <==> V().HasUnused()
      ensures found.Some? ==> found.value < NBUF && buf[found.value].refcnt == 0
      ensures found.Some? ==> forall j | 0 <= j < NBUF && buf[j].refcnt == 0 :: stamp[found.value] <= stamp[j]
    {
      assert prev[At(order, HEAD, NBUF + 1)] == At(order, HEAD, NBUF);
      var i := prev[HEAD];
      ghost var k: nat := NBUF;
      while i != HEAD
        invariant 0 <= k <= NBUF && i == At(order, HEAD, k)
        invariant forall m | k <= m < NBUF :: buf[order[m]].refcnt != 0
        decreases k
      {
        assert i == order[k - 1];
        if buf[i].refcnt == 0 {
          forall j | 0 <= j < NBUF && buf[j].refcnt == 0 ensures stamp[i] <= stamp[j] {
            assert j in order;
            var m :| 0 <= m < |order| && order[m] == j;
            assert m <= k - 1;
          }
          return Some(i);
        }
        assert prev[At(order, HEAD, k)] == At(order, HEAD, k - 1);
        i := prev[i];
        k := k - 1;
      }
      forall j | 0 <= j < NBUF ensures buf[j].refcnt != 0 {
        assert j in order;
        var m :| 0 <= m < |order| && order[m] == j;
      }
      found := None;
    }

    /** bget (kernel/bio.c:58-89) up to releasing `bcache.lock`: find the block's buffer, or recycle
        the unused buffer whose last release is oldest; count the caller's reference.
        None is the panic of line 88. A process does not get a block twice. */
    method Bget(p: nat, blockno: nat) returns (r: Option<nat>)
      requires Valid() && blockno < |disk|
      requires blockno in where ==> where[blockno] < NBUF && p !in users[where[blockno]]
      modifies this`buf, this`where, this`users
      ensures Valid()
      ensures r.None? <==> blockno !in old(where) && !old(V()).HasUnused()
      ensures r.None? ==> V() == old(V())
      ensures r.Some? ==> r.value < NBUF && blockno in where && where[blockno] == r.value
      ensures blockno in old(where) ==>
                && r == Some(old(where[blockno]))
                && V() == old(V()).SetBuf(r.value, old(buf[r.value]).(refcnt := old(buf[r.value].refcnt) + 1))
                   .AddUser(r.value, p)
      ensures blockno !in old(where) && r.Some? ==>
                && old(buf[r.value]).refcnt == 0
                && (forall j | 0 <= j < NBUF && old(buf[j]).refcnt == 0 :: stamp[r.value] <= stamp[j])
                && V() == old(V()).Recycle(r.value, blockno).AddUser(r.value, p)
    {
      assert V().BlockOk(blockno);
      var i;
      r := FindCached(blockno);
      if r.Some? {
        i := r.value;
        assert V().BufOk(i);
        SetBufOk(V(), i, buf[i].(refcnt := buf[i].refcnt + 1), users[i] + {p}, pins[i]);
        buf := buf[i := buf[i].(refcnt := buf[i].refcnt + 1)];
      } else {
        r := FindUnused();
        if r.None? {
          return;
        }
        i := r.value;
        RecycleOk(V(), i, blockno, p);
        where := V().Recycle(i, blockno).where;
        buf := buf[i := buf[i].(dev := ROOTDEV, blockno := blockno, valid := false, refcnt := 1)];
      }
      users := users[i := users[i] + {p}];
    }

    /** acquiresleep(&b->lock) (kernel/bio.c:70 and 84), once the lock is free. */
    method Lock(p: nat, i: nat)
      requires Valid() && i < NBUF && p in users[i]
      requires buf[i].holder == None
      modifies this`buf
      ensures Valid()
      ensures V() == old(V()).SetBuf(i, old(buf[i]).(holder := Some(p)))
    {
      assert V().BufOk(i);
      UsedBuf(V(), i);
      assert V().BlockOk(buf[i].blockno);
      SetBufOk(V(), i, buf[i].(holder := Some(p)), users[i], pins[i]);
      buf := buf[i := buf[i].(holder := Some(p))];
    }

    /** bread's disk read (kernel/bio.c:98-101): the holder ends up with the latest contents. */
    method Fill(p: nat, i: nat)
      requires Valid() && i < NBUF && buf[i].holder == Some(p)
      modifies this`buf
      ensures Valid() && buf[i].blockno < |disk|
      ensures V() == old(V()).SetBuf(i, old(buf[i]).(valid := true, data := latest[buf[i].blockno]))
    {
      assert V().BufOk(i);
      UsedBuf(V(), i);
      assert V().BlockOk(buf[i].blockno);
      SetBufOk(V(), i, buf[i].(valid := true, data := latest[buf[i].blockno]), users[i], pins[i]);
      if !buf[i].valid {
        buf := buf[i := buf[i].(data := disk[buf[i].blockno])];
        buf := buf[i := buf[i].(valid := true)];
      }
      assert buf == old(buf)[i := old(buf[i]).(valid := true, data := latest[buf[i].blockno])];
    }

    /** The holder changes the buffer's contents: this is the new latest contents of the block. */
    method Modify(p: nat, i: nat, data: Block)
      requires Valid() && i < NBUF && buf[i].holder == Some(p) && buf[i].valid
      modifies this`buf, this`latest
      ensures Valid() && buf[i].blockno < |disk|
      ensures V() == old(V()).SetBuf(i, old(buf[i]).(data := data)).(latest := old(latest)[buf[i].blockno := data])
    {
      assert V().BufOk(i);
      ModifyOk(V(), i, data);
      buf := buf[i := buf[i].(data := data)];
      latest := latest[buf[i].blockno := data];
    }

    /** bwrite (kernel/bio.c:106-112). */
    method Bwrite(p: nat, i: nat)
      requires Valid() && i < NBUF && buf[i].holder == Some(p) && buf[i].valid
      modifies this`disk, this`trace
      ensures Valid() && buf[i].blockno < |old(disk)|
      ensures disk == old(disk)[buf[i].blockno := latest[buf[i].blockno]]
      ensures trace == old(trace) + [Write(buf[i].blockno, latest[buf[i].blockno])]
    {
      assert V().BufOk(i);
      UsedBuf(V(), i);
      DiskWriteOk(V(), i);
      disk := disk[buf[i].blockno := buf[i].data];
      trace := trace + [Write(buf[i].blockno, buf[i].data)];
    }

    /** brelse, first half: releasesleep(&b->lock) (kernel/bio.c:119-122). */
    method Unlock(p: nat, i: nat)
      requires Valid() && i < NBUF && buf[i].holder == Some(p)
      modifies this`buf
      ensures Valid()
      ensures V() == old(V()).SetBuf(i, old(buf[i]).(holder := None))
    {
      assert V().BufOk(i);
      UsedBuf(V(), i);
      assert V().BlockOk(buf[i].blockno);
      SetBufOk(V(), i, buf[i].(holder := None), users[i], pins[i]);
      buf := buf[i := buf[i].(holder := None)];
    }

    /** Unlink the buffer and push it at the front (kernel/bio.c:128-133). */
    method MoveToHead(i: nat) returns (ghost k: nat)
      requires IsRing(next, prev, order, HEAD) && i in order
      modifies this`next, this`prev, this`order
      ensures IsRing(next, prev, order, HEAD)
      ensures k < |old(order)| && old(order)[k] == i && order == [i] + old(order)[..k] + old(order)[k + 1..]
    {
      k :| 0 <= k < |order| && order[k] == i;
      ghost var rest := Without(order, k);
      UnlinkRing(next, prev, order, HEAD, k);
      prev := prev[next[i] := prev[i]];
      next := next[prev[i] := next[i]];
      PushFrontRing(next, prev, rest, HEAD, i);
      next, prev := next[i := next[HEAD]], prev[i := HEAD];
      prev := prev[next[HEAD] := i];
      next := next[HEAD := i];
      assert [i] + rest == [i] + order[..k] + order[k + 1..];
      order := [i] + rest;
    }

    /** The move, as the newest release to zero. */
    method Touch(i: nat)
      requires ListOk(next, prev, order, stamp, clock) && i < NBUF
      modifies this`next, this`prev, this`order, this`stamp, this`clock
      ensures ListOk(next, prev, order, stamp, clock)
      ensures order[0] == i && clock == old(clock) + 1 && stamp == old(stamp)[i := old(clock)]
    {
      ghost var k := MoveToHead(i);
      MovedListOk(old(next), old(prev), old(order), stamp, clock, next, prev, order, i, k);
      stamp := stamp[i := clock];
      clock := clock + 1;
    }

    /** brelse, second half (kernel/bio.c:124-136): drop the reference and, when it was the last
        one, move the buffer to the front of the list. A client that changed the block must have
        written or pinned it before the count reaches zero. */
    method Drop(p: nat, i: nat)
      requires Valid() && i < NBUF && p in users[i] && buf[i].holder != Some(p)
      requires buf[i].refcnt == 1 ==> buf[i].blockno < |disk| && latest[buf[i].blockno] == disk[buf[i].blockno]
      modifies this`buf, this`users, this`next, this`prev, this`order, this`stamp, this`clock
      ensures Valid() && old(buf[i]).refcnt > 0
      ensures V() == old(V()).SetBuf(i, old(buf[i]).(refcnt := old(buf[i]).refcnt - 1))
                     .(users := old(users)[i := old(users[i]) - {p}])
      ensures buf[i].refcnt == 0 ==>
                && order[0] == i && clock == old(clock) + 1 && stamp == old(stamp)[i := old(clock)]
      ensures buf[i].refcnt > 0 ==> order == old(order) && stamp == old(stamp) && clock == old(clock)
    {
      assert V().BufOk(i);
      UsedBuf(V(), i);
      assert V().BlockOk(buf[i].blockno);
      SetBufOk(V(), i, buf[i].(refcnt := buf[i].refcnt - 1), users[i] - {p}, pins[i]);
      buf := buf[i := buf[i].(refcnt := buf[i].refcnt - 1)];
      users := users[i := users[i] - {p}];
      if buf[i].refcnt == 0 {
        Touch(i);
      }
    }

    /** bpin (kernel/bio.c:139-144). */
    method Bpin(i: nat)
      requires Valid() && i < NBUF && buf[i].refcnt > 0
      modifies this`buf, this`pins
      ensures Valid()
      ensures V() == old(V()).SetBuf(i, old(buf[i]).(refcnt := old(buf[i]).refcnt + 1))
                     .(pins := old(pins)[i := old(pins[i]) + 1])
    {
      UsedBuf(V(), i);
      assert V().BufOk(i);
      assert V().BlockOk(buf[i].blockno);
      SetBufOk(V(), i, buf[i].(refcnt := buf[i].refcnt + 1), users[i], pins[i] + 1);
      buf := buf[i := buf[i].(refcnt := buf[i].refcnt + 1)];
      pins := pins[i := pins[i] + 1];
    }

    /** bunpin (kernel/bio.c:146-151); it does not reorder the list. */
    method Bunpin(i: nat)
      requires Valid() && i < NBUF && pins[i] > 0
      requires buf[i].refcnt == 1 ==> buf[i].blockno < |disk| && latest[buf[i].blockno] == disk[buf[i].blockno]
      modifies this`buf, this`pins
      ensures Valid() && old(buf[i]).refcnt > 0
      ensures V() == old(V()).SetBuf(i, old(buf[i]).(refcnt := old(buf[i]).refcnt - 1))
                     .(pins := old(pins)[i := old(pins[i]) - 1])
    {
      assert V().BufOk(i);
      UsedBuf(V(), i);
      assert V().BlockOk(buf[i].blockno);
      SetBufOk(V(), i, buf[i].(refcnt := buf[i].refcnt - 1), users[i], pins[i] - 1);
      buf := buf[i := buf[i].(refcnt := buf[i].refcnt - 1)];
      pins := pins[i := pins[i] - 1];
    }

    /** bread (kernel/bio.c:92-103) when no other process holds the buffer's lock. */
    method Bread(p: nat, blockno: nat) returns (r: Option<nat>)
      requires Valid() && blockno < |disk|
      requires blockno in where ==>
                 where[blockno] < NBUF && p !in users[where[blockno]] && buf[where[blockno]].holder == None
      modifies this`buf, this`where, this`users
      ensures Valid()
      ensures r.None? <==> blockno !in old(where) && !old(V()).HasUnused()
      ensures if r.Some? then Borrowed(old(V()), V(), p, blockno, r.value) else V() == old(V())
    {
      r := Bget(p, blockno);
      if r.None? {
        return;
      }
      assert old(V()).BlockOk(blockno);
      if blockno !in old(where) { assert old(V()).BufOk(r.value); }
      Lock(p, r.value);
      Fill(p, r.value);
    }

    /** brelse (kernel/bio.c:116-137). */
    method Brelse(p: nat, i: nat)
      requires Valid() && i < NBUF && buf[i].holder == Some(p) && buf[i].blockno < |disk|
      requires buf[i].refcnt == 1 ==> latest[buf[i].blockno] == disk[buf[i].blockno]
      modifies this`buf, this`users, this`next, this`prev, this`order, this`stamp, this`clock
      ensures Valid() && old(buf[i]).refcnt > 0
      ensures V() == old(V()).SetBuf(i, old(buf[i]).(holder := None, refcnt := old(buf[i]).refcnt - 1))
                             .(users := old(users)[i := old(users[i]) - {p}])
    {
      assert V().BufOk(i);
      Unlock(p, i);
      Drop(p, i);
    }
  }

  /** `w` is `v` after process `p` obtained block `b`, locked and up to date, in buffer `i`. */
  ghost predicate Borrowed(v: View, w: View, p: nat, b: nat, i: nat) {
    && v.Shaped() && w.Shaped() && i < NBUF && b < |v.disk|
    && w.disk == v.disk && w.latest == v.latest && w.pins == v.pins
    && w.users == v.users[i := v.users[i] + {p}]
    && w.buf == v.buf[i := w.buf[i]]
    && w.buf[i] == Buf(true, ROOTDEV, b, Some(p), v.buf[i].refcnt + 1, v.latest[b])
    && b in w.where && w.where[b] == i
    && (b in v.where ==> v.where[b] == i && w.where == v.where)
    && (b !in v.where ==> v.buf[i].refcnt == 0 && w.where == v.Recycle(i, b).where)
  }
}
