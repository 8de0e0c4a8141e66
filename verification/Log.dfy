/** The write-ahead log of kernel/log.c, running over the buffer cache.

    The commit and recovery code below issues exactly the block writes of module LogSpec, which is
    where their crash behaviour is proved. Between any two of its critical sections other processes
    use the cache, as a schedule says. */
module Log {
  import opened Basics
  import opened Blocks
  import opened LogSpec
  import opened BufferCache
  import opened LogCache
  import R = Reservation

  /** How far the process got: through; asleep for a buffer's lock when the schedule ended; or into the panic
      of kernel/bio.c:88. */
  datatype Stop = Through | Waits | NoBuffer

  /** `p` uses a buffer that another process has locked. */
  ghost predicate LockedOut(v: View, p: nat) {
    exists i ::
      0 <= i < |v.buf| && i < |v.users| && p in v.users[i] && v.buf[i].holder.Some? && v.buf[i].holder != Some(p)
  }

  /** One more block installed. */
  lemma InstallStep(a: Area, d: seq<Block>, tail: nat, tr: seq<Write>)
    requires LogOk(a, d) && tail < d[a.start][0]
    ensures var iw := InstallWrites(a, d);
            var e := After(d, iw, tail);
            var w := Write(Recorded(d[a.start])[tail], e[a.start + 1 + tail]);
            && After(d, iw, tail + 1) == e[w.bno := w.data]
            && tr + iw[..tail] + [w] == tr + iw[..tail + 1]
  {
    InstallKeepsLog(a, d, tail);
    assert a.Has(a.start + 1 + tail);
    TakeSnoc(InstallWrites(a, d), tail);
  }

  lemma InstallStart(a: Area, d: seq<Block>)
    requires LogOk(a, d)
    ensures After(d, InstallWrites(a, d), 0) == d
    ensures InstallWrites(a, d)[..0] == []
    ensures InstallWrites(a, d)[..d[a.start][0]] == InstallWrites(a, d)
    ensures forall recovering :: StillPinned(recovering, Recorded(d[a.start]), d[a.start][0]) == []
  {
  }

  /** Installing and then clearing the header are the recovery writes. */
  lemma RecoverAssembled(a: Area, d: seq<Block>, tr: seq<Write>)
    requires LogOk(a, d)
    ensures var iw := InstallWrites(a, d);
            var w := HeadWrite(a, Apply(d, iw), []);
            && tr + iw[..|iw|] + [w] == tr + RecoverWrites(a, d)[..|RecoverWrites(a, d)|]
            && After(d, iw, |iw|)[a.start := w.data] == After(d, RecoverWrites(a, d), |RecoverWrites(a, d)|)
  {
    hide LogOk, InstallWrites;
    var iw := InstallWrites(a, d);
    HeaderKept(a, d);
    AfterPrefix(d, RecoverWrites(a, d), iw, |iw|);
  }

  lemma HeaderKept(a: Area, d: seq<Block>)
    requires LogOk(a, d)
    ensures a.start < |d| && Apply(d, InstallWrites(a, d))[a.start] == d[a.start]
  {
    InstallKeepsLog(a, d, |InstallWrites(a, d)|);
    assert a.Has(a.start);
  }

  /** Writing the log and then the header seals the transaction. */
  lemma SealAssembled(a: Area, d: seq<Block>, t: Txn, tr: seq<Write>)
    requires LogOk(a, d) && TxnOk(a, d, t)
    ensures InRange(LogWrites(a, t), |d|)
    ensures var lw := LogWrites(a, t);
            var w := HeadWrite(a, Apply(d, lw), t.blocks);
            && tr + lw + [w] == tr + SealWrites(a, d, t)
            && Apply(d, lw)[a.start := w.data] == Sealed(a, d, t)
  {
    var lw := LogWrites(a, t);
    AfterAt(d, lw, |lw|, a.start);
    AfterPrefix(d, SealWrites(a, d, t), lw, |lw|);
  }

  class Log {
    const cache: Cache
    const area: Area
    const p: nat               // the process running commit or recovery
    var lh: seq<int>           // lh.block[0..lh.n)
    var outstanding: int
    var committing: bool
    var sched: seq<seq<Act>>        // what other processes do before each of p's next critical sections
    ghost var used: map<nat, nat>   // fresh blocks logged by each operation in progress

    ghost function St(): R.State
      reads this
    {
      R.State(lh, outstanding, committing, used)
    }

    ghost predicate Sane()
      reads this, cache
    {
      && cache.Valid()
      && LogOk(area, cache.disk)
      && HomeBlocks(area, |cache.disk|, lh)
    }

    /** Why the process stopped. */
    ghost predicate StopOk(stop: Stop)
      reads this, cache
    {
      && (stop == NoBuffer ==> !cache.V().HasUnused())
      && (stop == Waits ==> sched == [] && LockedOut(cache.V(), p))
    }

    constructor (cache: Cache, area: Area, p: nat, sched: seq<seq<Act>>)
      ensures this.cache == cache && this.area == area && this.p == p && this.sched == sched && St() == R.Init
    {
      this.cache, this.area, this.p, this.sched, lh := cache, area, p, sched, [];
      outstanding, committing, used := 0, false, map[];
    }

    /** One pass through begin_op's loop (kernel/log.c:130-141): the operation is admitted, or it must
        sleep and try again. */
    method BeginOp(ghost o: nat) returns (admitted: bool)
      requires R.Inv(St()) && o !in used
      modifies this`outstanding, this`used
      ensures R.Inv(St())
      ensures admitted <==> !committing && |lh| + (old(outstanding) + 1) * MAXOPBLOCKS <= LOGSIZE
      ensures outstanding == old(outstanding) + if admitted then 1 else 0
      ensures St() == if admitted then R.Next(old(St()), R.Begin(o)) else old(St())
    {
      if committing {
        admitted := false;
      } else if |lh| + (outstanding + 1) * MAXOPBLOCKS > LOGSIZE {
        admitted := false;
      } else {
        R.StepInv(St(), R.Begin(o));
        outstanding := outstanding + 1;
        used := used[o := 0];
        admitted := true;
      }
    }

    /** log_write (kernel/log.c:215-235) of held buffer `i`: a block already logged is absorbed, a fresh
        one is appended and pinned. The panics of lines 220-223 are the preconditions on lh and
        outstanding that module Reservation discharges. */
    method LogWrite(pid: nat, i: nat, ghost o: nat)
      requires cache.Valid() && Pinned(cache.V(), lh)
      requires i < NBUF && cache.buf[i].holder == Some(pid) && cache.buf[i].valid
      requires R.Inv(St()) && R.Enabled(St(), R.LogWrite(o, cache.buf[i].blockno))
      requires |lh| < LOGSIZE && |lh| < area.size - 1 && outstanding >= 1
      modifies this`lh, this`used, cache`buf, cache`pins
      ensures cache.Valid() && Pinned(cache.V(), lh)
      ensures R.Inv(St()) && St() == R.Next(old(St()), R.LogWrite(o, old(cache.buf[i]).blockno))
      ensures var b := old(cache.buf[i]).blockno; lh == if b in old(lh) then old(lh) else old(lh) + [b]
      ensures cache.latest == old(cache.latest) && cache.disk == old(cache.disk) && cache.users == old(cache.users)
    {
      hide R.Inv, Pinned;
      var blockno := cache.buf[i].blockno;
      R.StepInv(St(), R.LogWrite(o, blockno));
      var k := 0;
      while k < |lh| && lh[k] != blockno
        invariant 0 <= k <= |lh|
        invariant blockno !in lh[..k]
      {
        k := k + 1;
      }
      assert lh[..|lh|] == lh;
      ghost var v := cache.V();
      assert v.BufOk(i);
      UsedBuf(v, i);
      if k == |lh| {
        cache.Bpin(i);
        PinnedAppend(v, cache.V(), lh, i);
        used := used[o := used[o] + 1];
        lh := lh + [blockno];
      } else {
        assert lh[k := blockno] == lh;
        lh := lh[k := blockno];
      }
    }

    /** end_op, its first critical section (kernel/log.c:151-164): the last operation out commits. */
    method EndOp(ghost o: nat) returns (doCommit: bool)
      requires R.Inv(St()) && o in used && !committing
      modifies this`outstanding, this`committing, this`used
      ensures R.Inv(St()) && St() == R.Next(old(St()), R.End(o))
      ensures outstanding == old(outstanding) - 1 && doCommit == (outstanding == 0) == committing
    {
      R.StepInv(St(), R.End(o));
      used := used - {o};
      outstanding := outstanding - 1;
      doCommit := false;
      if outstanding == 0 {
        doCommit := true;
        committing := true;
      }
    }

    /** end_op's last critical section (kernel/log.c:170-173), once commit has emptied the log. */
    method EndCommit()
      requires lh == [] && committing && outstanding == 0 && used == map[]
      modifies this`committing
      ensures R.Inv(St()) && St() == R.Init && !committing
    {
      committing := false;
    }

    /** Other processes run. */
    method Yield(ghost pinned: seq<int>, ghost mine: set<nat>, ghost held: set<nat>)
      requires cache.Valid() && Using(cache.V(), pinned, p, mine, held)
      modifies `sched, cache
      ensures cache.Valid() && Using(cache.V(), pinned, p, mine, held)
      ensures Shared(old(cache.V()), cache.V(), mine, held) && cache.trace == old(cache.trace)
      ensures sched == if old(sched) == [] then [] else old(sched)[1..]
    {
      hide Using, ListOk, View.Ok;
      UsingAt(cache.V(), pinned, p, mine, held, 0);
      if sched == [] {
        return;
      }
      var acts := sched[0];
      sched := sched[1..];
      for k := 0 to |acts|
        invariant cache.Valid() && Using(cache.V(), pinned, p, mine, held) && sched == old(sched)[1..]
        invariant Shared(old(cache.V()), cache.V(), mine, held) && cache.trace == old(cache.trace)
      {
        Other(cache, p, acts[k], pinned, mine, held);
      }
    }

    /** bread by the committing process (kernel/bio.c:92-103), which may have to wait for the buffer's lock. */
    method Bread(b: nat, ghost pinned: seq<int>, ghost held: set<nat>) returns (stop: Stop, i: nat)
      requires cache.Valid() && Using(cache.V(), pinned, p, held, held)
      requires b < |cache.disk| && forall j | j in held && j < |cache.buf| :: cache.buf[j].blockno != b
      modifies `sched, cache
      ensures cache.Valid() && cache.disk == old(cache.disk) && cache.latest == old(cache.latest)
      ensures cache.trace == old(cache.trace)
      ensures StopOk(stop)
      ensures stop == Through ==> i !in held && i < NBUF && Using(cache.V(), pinned, p, held + {i}, held + {i})
      ensures stop == Through ==> SameBufs(old(cache.V()), cache.V(), held, held) && cache.buf[i].blockno == b
      ensures stop == Through ==> cache.buf[i].valid
    {
      hide Using, ListOk, View.Ok;
      Yield(pinned, held, held);
      stop, i := Through, 0;
      var r := GetOwn(b, pinned, held);
      if r.None? {
        stop := NoBuffer;
        return;
      }
      i := r.value;
      stop := LockOwn(i, pinned, held);
      if stop != Through {
        return;
      }
      Yield(pinned, held + {i}, held + {i});
      FillOwn(i, pinned, held + {i});
    }

    /** bget by `p` itself. */
    method GetOwn(b: nat, ghost pinned: seq<int>, ghost held: set<nat>) returns (r: Option<nat>)
      requires cache.Valid() && Using(cache.V(), pinned, p, held, held)
      requires b < |cache.disk| && forall j | j in held && j < |cache.buf| :: cache.buf[j].blockno != b
      modifies cache
      ensures cache.Valid() && cache.disk == old(cache.disk) && cache.latest == old(cache.latest)
      ensures cache.trace == old(cache.trace)
      ensures r.None? ==> !cache.V().HasUnused()
      ensures r.Some? ==> r.value !in held && r.value < NBUF && Using(cache.V(), pinned, p, held + {r.value}, held)
      ensures r.Some? ==> SameBufs(old(cache.V()), cache.V(), held, held) && cache.buf[r.value].blockno == b
    {
      hide ListOk;
      ghost var v := cache.V();
      assert v.BlockOk(b);
      if b in v.where { UsingAt(v, pinned, p, held, held, v.where[b]); }
      r := cache.Bget(p, b);
      if r.Some? {
        var i := r.value;
        if b in v.where {
          ChangedUsing(v, cache.V(), pinned, p, held, held, i, held + {i}, held);
        } else {
          RecycledUsing(v, pinned, p, held, held, i, b, p);
        }
      }
    }

    /** acquiresleep by `p` (kernel/sleeplock.c:21-31): it waits while another process holds the lock. */
    method LockOwn(i: nat, ghost pinned: seq<int>, ghost held: set<nat>) returns (stop: Stop)
      requires cache.Valid() && Using(cache.V(), pinned, p, held + {i}, held) && i !in held && i < NBUF
      modifies `sched, cache
      ensures cache.Valid() && cache.disk == old(cache.disk) && cache.latest == old(cache.latest)
      ensures cache.trace == old(cache.trace)
      ensures StopOk(stop) && stop != NoBuffer
      ensures stop == Through ==> Using(cache.V(), pinned, p, held + {i}, held + {i})
      ensures stop == Through ==> SameBufs(old(cache.V()), cache.V(), held + {i}, held)
    {
      hide Using, ListOk, View.Ok;
      ghost var mine := held + {i};
      Yield(pinned, mine, held);
      UsingAt(cache.V(), pinned, p, mine, held, i);
      while cache.buf[i].holder != None
        invariant cache.Valid() && Using(cache.V(), pinned, p, mine, held) && |cache.buf| == NBUF
        invariant Shared(old(cache.V()), cache.V(), mine, held) && cache.trace == old(cache.trace)
        decreases |sched|
      {
        UsingAt(cache.V(), pinned, p, mine, held, i);
        if sched == [] {
          return Waits;
        }
        Yield(pinned, mine, held);
        UsingAt(cache.V(), pinned, p, mine, held, i);
      }
      ghost var v := cache.V();
      UsingAt(v, pinned, p, mine, held, i);
      cache.Lock(p, i);
      ChangedUsing(v, cache.V(), pinned, p, mine, held, i, mine, mine);
      stop := Through;
    }

    /** bread's reading of the disk by `p`. */
    method FillOwn(i: nat, ghost pinned: seq<int>, ghost held: set<nat>)
      requires cache.Valid() && Using(cache.V(), pinned, p, held, held) && i in held && i < NBUF
      modifies cache
      ensures cache.Valid() && Using(cache.V(), pinned, p, held, held)
      ensures Shared(old(cache.V()), cache.V(), held, held) && cache.trace == old(cache.trace) && cache.buf[i].valid
    {
      hide Using, ListOk, View.Ok;
      ghost var v := cache.V();
      UsingAt(v, pinned, p, held, held, i);
      cache.Fill(p, i);
      ChangedUsing(v, cache.V(), pinned, p, held, held, i, held, held);
    }

    /** memmove into a locked buffer. */
    method Copy(i: nat, data: Block, ghost pinned: seq<int>, ghost held: set<nat>)
      requires cache.Valid() && Using(cache.V(), pinned, p, held, held) && i in held && i < NBUF && cache.buf[i].valid
      modifies `sched, cache
      ensures cache.Valid() && Using(cache.V(), pinned, p, held, held)
      ensures cache.disk == old(cache.disk) && cache.trace == old(cache.trace)
      ensures SameBufs(old(cache.V()), cache.V(), held, held)
      ensures cache.buf[i].blockno < |old(cache.latest)| == |cache.disk|
      ensures cache.latest == old(cache.latest)[cache.buf[i].blockno := data]
    {
      hide Using, ListOk, View.Ok;
      Yield(pinned, held, held);
      UsingAt(cache.V(), pinned, p, held, held, i);
      ModifiedUsing(cache.V(), pinned, p, held, held, i, data);
      cache.Modify(p, i, data);
    }

    /** bwrite of a locked buffer. */
    method Bwrite(i: nat, ghost pinned: seq<int>, ghost held: set<nat>)
      requires cache.Valid() && Using(cache.V(), pinned, p, held, held) && i in held && i < NBUF && cache.buf[i].valid
      modifies `sched, cache
      ensures cache.Valid() && Using(cache.V(), pinned, p, held, held)
      ensures cache.latest == old(cache.latest) && SameBufs(old(cache.V()), cache.V(), held, held)
      ensures cache.buf[i].blockno < |old(cache.disk)| == |cache.latest|
      ensures cache.disk == old(cache.disk)[cache.buf[i].blockno := cache.latest[cache.buf[i].blockno]]
      ensures cache.trace == old(cache.trace) + [Write(cache.buf[i].blockno, cache.latest[cache.buf[i].blockno])]
    {
      hide Using, ListOk, View.Ok;
      Yield(pinned, held, held);
      UsingAt(cache.V(), pinned, p, held, held, i);
      WrittenUsing(cache.V(), pinned, p, held, held, i);
      cache.Bwrite(p, i);
    }

    /** brelse of a buffer whose block is pinned or on disk. */
    method Brelse(i: nat, ghost pinned: seq<int>, ghost held: set<nat>)
      requires cache.Valid() && Using(cache.V(), pinned, p, held, held) && i in held && i < NBUF
      requires cache.buf[i].blockno < |cache.disk| == |cache.latest|
      requires cache.buf[i].blockno in pinned || cache.latest[cache.buf[i].blockno] == cache.disk[cache.buf[i].blockno]
      modifies `sched, cache
      ensures cache.Valid() && Using(cache.V(), pinned, p, held - {i}, held - {i})
      ensures Shared(old(cache.V()), cache.V(), held - {i}, held - {i}) && cache.trace == old(cache.trace)
    {
      hide Using, ListOk, View.Ok;
      Yield(pinned, held, held);
      ghost var v := cache.V();
      UsingAt(v, pinned, p, held, held, i);
      cache.Unlock(p, i);
      ghost var rest := held - {i};
      ChangedUsing(v, cache.V(), pinned, p, held, held, i, held, rest);
      Yield(pinned, held, rest);
      v := cache.V();
      UsingAt(v, pinned, p, held, rest, i);
      cache.Drop(p, i);
      ChangedUsing(v, cache.V(), pinned, p, held, rest, i, rest, rest);
    }

    /** bunpin of the first logged block, which `p` has locked. */
    method Bunpin(i: nat, ghost pinned: seq<int>, ghost held: set<nat>)
      requires cache.Valid() && Using(cache.V(), pinned, p, held, held) && i in held && i < NBUF
      requires pinned != [] && cache.buf[i].blockno == pinned[0] && pinned[0] !in pinned[1..]
      modifies `sched, cache
      ensures cache.Valid() && Using(cache.V(), pinned[1..], p, held, held)
      ensures Shared(old(cache.V()), cache.V(), held, held) && cache.trace == old(cache.trace)
    {
      hide Using, ListOk, View.Ok;
      Yield(pinned, held, held);
      ghost var v := cache.V();
      UsingAt(v, pinned, p, held, held, i);
      Held(v, pinned, p, held, held, i);
      cache.Bunpin(i);
      UnpinnedUsing(v, cache.V(), pinned, p, held, held, i);
    }

    /** One iteration of write_log (kernel/log.c:184-189): copy a logged block from the cache to its
        log block and write that to disk. */
    method CopyToLog(tail: nat) returns (stop: Stop)
      requires cache.Valid() && Using(cache.V(), lh, p, {}, {}) && tail < |lh|
      requires HomeBlocks(area, |cache.disk|, lh) && area.start + area.size <= |cache.disk| == |cache.latest|
      modifies `sched, cache
      ensures cache.Valid() && StopOk(stop)
      ensures stop != Through ==> cache.disk == old(cache.disk) && cache.trace == old(cache.trace)
      ensures stop == Through ==> Using(cache.V(), lh, p, {}, {})
      ensures stop == Through ==> |cache.latest| == |old(cache.latest)|
      ensures stop == Through ==> Logged(cache.latest, lh) == Logged(old(cache.latest), lh)
      ensures stop == Through ==>
                var l := area.start + 1 + tail;
                && l < |old(cache.disk)| && 0 <= lh[tail] < |old(cache.disk)|
                && cache.disk == old(cache.disk)[l := old(cache.latest)[lh[tail]]]
                && cache.trace == old(cache.trace) + [Write(l, old(cache.latest)[lh[tail]])]
    {
      hide Using, ListOk, View.Ok;
      var l := area.start + 1 + tail;
      var to, from;
      stop, to := Bread(l, lh, {});
      if stop != Through {
        return;
      }
      assert {} + {to} == {to};
      stop, from := Bread(lh[tail], lh, {to});
      if stop != Through {
        return;
      }
      ghost var held := {to} + {from};
      Held(cache.V(), lh, p, held, held, from);
      Copy(to, cache.buf[from].data, lh, held);
      Bwrite(to, lh, held);
      Held(cache.V(), lh, p, held, held, from);
      assert held - {from} == {to} && {to} - {to} == {};
      Brelse(from, lh, held);
      Held(cache.V(), lh, p, {to}, {to}, to);
      Brelse(to, lh, {to});
      LoggedSame(area, old(cache.latest), lh, l, old(cache.latest)[lh[tail]]);
    }

    /** write_log (kernel/log.c:178-191). `n` log blocks are written. */
    method WriteLog() returns (stop: Stop, n: nat)
      requires Sane() && Using(cache.V(), lh, p, {}, {})
      modifies `sched, cache
      ensures cache.Valid() && StopOk(stop) && n <= |lh|
      ensures (stop == Through ==> n == |lh| && Using(cache.V(), lh, p, {}, {}))
      ensures |old(cache.latest)| == |old(cache.disk)|
      ensures var lw := LogWrites(area, Logged(old(cache.latest), lh));
              && InRange(lw, |old(cache.disk)|)
              && cache.disk == After(old(cache.disk), lw, n) && cache.trace == old(cache.trace) + lw[..n]
    {
      hide Using, ListOk, View.Ok, Logged, LogWrites, After;
      ghost var disk0, tr := cache.disk, cache.trace;
      UsingAt(cache.V(), lh, p, {}, {}, 0);
      ghost var t := Logged(cache.latest, lh);
      ghost var lw := LogWrites(area, t);
      LogBegins(area, disk0, t);
      n, stop := 0, Through;
      while n < |lh|
        invariant n <= |lh| && InRange(lw, |disk0|) && stop == Through
        invariant cache.Valid() && Using(cache.V(), lh, p, {}, {})
        invariant |cache.disk| == |disk0| == |cache.latest| && Logged(cache.latest, lh) == t
        invariant cache.disk == After(disk0, lw, n)
        invariant cache.trace == tr + lw[..n]
      {
        LogStep(area, disk0, cache.latest, lh, n);
        stop := CopyToLog(n);
        if stop != Through {
          return;
        }
        n := n + 1;
      }
    }

    /** write_head (kernel/log.c:103-114): the in-memory header over the first words of the header
        block; the commit point when lh is not empty. */
    method WriteHead(ghost pinned: seq<int>) returns (stop: Stop)
      requires cache.Valid() && Using(cache.V(), pinned, p, {}, {})
      requires area.start < |cache.disk| && area.start !in pinned && |lh| <= LOGSIZE
      modifies `sched, cache
      ensures cache.Valid() && StopOk(stop) && (stop == Through ==> Using(cache.V(), pinned, p, {}, {}))
      ensures stop != Through ==> cache.disk == old(cache.disk) && cache.trace == old(cache.trace)
      ensures stop == Through ==>
                var w := HeadWrite(area, old(cache.disk), lh);
                cache.disk == old(cache.disk)[area.start := w.data] && cache.trace == old(cache.trace) + [w]
    {
      hide Using, ListOk, View.Ok;
      Clean(cache.V(), pinned, p, {}, {}, area.start);
      UsingAt(cache.V(), pinned, p, {}, {}, 0);
      var i;
      stop, i := Bread(area.start, pinned, {});
      if stop != Through {
        return;
      }
      Held(cache.V(), pinned, p, {} + {i}, {} + {i}, i);
      var hb := PutHeader(cache.buf[i].data);
      Copy(i, hb, pinned, {} + {i});
      Bwrite(i, pinned, {} + {i});
      Brelse(i, pinned, {} + {i});
      assert {} + {i} - {i} == {};
    }

    /** The loop of write_head (kernel/log.c:107-111). */
    method PutHeader(old_: Block) returns (hb: Block)
      requires |lh| <= LOGSIZE
      ensures hb == PutHead(old_, lh)
    {
      hb := old_[0 := |lh|];
      var k := 0;
      while k < |lh|
        invariant 0 <= k <= |lh| && hb == [|lh|] + lh[..k] + old_[1 + k..]
      {
        hb := hb[1 + k := lh[k]];
        k := k + 1;
      }
      assert lh[..k] == lh;
    }

    /** The copy of install_trans (kernel/log.c:74-77): read a log block and its home block, and write
        the log block's contents home. */
    method CopyHome(tail: nat, ghost pinned: seq<int>) returns (stop: Stop, lbuf: nat, dbuf: nat)
      requires cache.Valid() && Using(cache.V(), pinned, p, {}, {})
      requires HomeBlocks(area, |cache.disk|, lh) && tail < |lh| && area.start + area.size <= |cache.disk|
      requires forall b | b in pinned :: b in lh
      modifies `sched, cache
      ensures cache.Valid() && StopOk(stop)
      ensures stop != Through ==> cache.disk == old(cache.disk) && cache.trace == old(cache.trace)
      ensures stop == Through ==> lbuf != dbuf && Using(cache.V(), pinned, p, {lbuf, dbuf}, {lbuf, dbuf})
      ensures stop == Through ==> lbuf < NBUF && dbuf < NBUF
      ensures stop == Through ==>
                var l := area.start + 1 + tail;
                && l < |old(cache.disk)| && 0 <= lh[tail] < |old(cache.disk)|
                && cache.disk == old(cache.disk)[lh[tail] := old(cache.disk)[l]]
                && cache.trace == old(cache.trace) + [Write(lh[tail], old(cache.disk)[l])]
                && cache.buf[lbuf].blockno == l && cache.buf[dbuf].blockno == lh[tail]
                && |cache.latest| == |cache.disk| && cache.latest[l] == cache.disk[l]
                  && cache.latest[lh[tail]] == cache.disk[lh[tail]]
    {
      hide Using, ListOk, View.Ok;
      var l := area.start + 1 + tail;
      Clean(cache.V(), pinned, p, {}, {}, l);
      UsingAt(cache.V(), pinned, p, {}, {}, 0);
      stop, lbuf := Bread(l, pinned, {});
      dbuf := 0;
      if stop != Through {
        return;
      }
      assert {} + {lbuf} == {lbuf};
      stop, dbuf := Bread(lh[tail], pinned, {lbuf});
      if stop != Through {
        return;
      }
      ghost var held := {lbuf, dbuf};
      assert {lbuf} + {dbuf} == held;
      Held(cache.V(), pinned, p, held, held, lbuf);
      Copy(dbuf, cache.buf[lbuf].data, pinned, held);
      Bwrite(dbuf, pinned, held);
    }

    /** One iteration of install_trans (kernel/log.c:74-81). While committing, the first pinned block
        is the one installed and it is unpinned. */
    method InstallOne(tail: nat, recovering: bool) returns (stop: Stop)
      requires cache.Valid() && tail < |lh| && Using(cache.V(), StillPinned(recovering, lh, tail), p, {}, {})
      requires HomeBlocks(area, |cache.disk|, lh) && area.start + area.size <= |cache.disk|
      modifies `sched, cache
      ensures cache.Valid() && StopOk(stop)
      ensures stop != Through ==> cache.disk == old(cache.disk) && cache.trace == old(cache.trace)
      ensures stop == Through ==> Using(cache.V(), StillPinned(recovering, lh, tail + 1), p, {}, {})
      ensures stop == Through ==>
                var l := area.start + 1 + tail;
                && l < |old(cache.disk)| && 0 <= lh[tail] < |old(cache.disk)|
                && cache.disk == old(cache.disk)[lh[tail] := old(cache.disk)[l]]
                && cache.trace == old(cache.trace) + [Write(lh[tail], old(cache.disk)[l])]
    {
      hide Using, ListOk, View.Ok;
      ghost var pinned := StillPinned(recovering, lh, tail);
      var lbuf, dbuf;
      stop, lbuf, dbuf := CopyHome(tail, pinned);
      if stop != Through {
        return;
      }
      ghost var rest := StillPinned(recovering, lh, tail + 1);
      if !recovering {
        assert rest == pinned[1..];
        forall k | tail < k < |lh| ensures lh[k] != lh[tail] { assert Differ(lh, tail, k); }
        Bunpin(dbuf, pinned, {lbuf, dbuf});
      }
      ReleaseBoth(lbuf, dbuf, rest);
    }

    /** The two brelse calls of install_trans (kernel/log.c:80-81). */
    method ReleaseBoth(lbuf: nat, dbuf: nat, ghost pinned: seq<int>)
      requires cache.Valid() && Using(cache.V(), pinned, p, {lbuf, dbuf}, {lbuf, dbuf}) && lbuf < NBUF && dbuf < NBUF
      requires lbuf != dbuf && |cache.disk| == |cache.latest|
      requires cache.buf[lbuf].blockno < |cache.disk| && cache.buf[dbuf].blockno < |cache.disk|
      requires cache.latest[cache.buf[lbuf].blockno] == cache.disk[cache.buf[lbuf].blockno]
      requires cache.latest[cache.buf[dbuf].blockno] == cache.disk[cache.buf[dbuf].blockno]
      modifies `sched, cache
      ensures cache.Valid() && Using(cache.V(), pinned, p, {}, {}) && cache.trace == old(cache.trace)
      ensures cache.disk == old(cache.disk) && cache.latest == old(cache.latest)
    {
      hide Using, ListOk, View.Ok;
      assert {lbuf, dbuf} - {lbuf} == {dbuf} && {dbuf} - {dbuf} == {};
      Brelse(lbuf, pinned, {lbuf, dbuf});
      Brelse(dbuf, pinned, {dbuf});
    }

    /** install_trans (kernel/log.c:69-83). `n` blocks are installed. */
    method InstallTrans(recovering: bool) returns (stop: Stop, n: nat)
      requires Sane() && lh == Recorded(cache.disk[area.start])
      requires Using(cache.V(), StillPinned(recovering, lh, 0), p, {}, {})
      modifies `sched, cache
      ensures cache.Valid() && StopOk(stop) && n <= |lh|
      ensures (stop == Through ==> n == |lh| && Using(cache.V(), [], p, {}, {}))
      ensures LogOk(area, old(cache.disk)) && |InstallWrites(area, old(cache.disk))| == |lh|
      ensures var iw := InstallWrites(area, old(cache.disk));
              cache.disk == After(old(cache.disk), iw, n) && cache.trace == old(cache.trace) + iw[..n]
    {
      hide After, InstallWrites, Using, ListOk, View.Ok, StillPinned, HomeBlocks, Recorded;
      ghost var disk0, tr := cache.disk, cache.trace;
      ghost var iw := InstallWrites(area, disk0);
      InstallStart(area, disk0);
      n, stop := 0, Through;
      while n < |lh|
        invariant n <= |lh| && stop == Through
        invariant cache.Valid() && Using(cache.V(), StillPinned(recovering, lh, n), p, {}, {})
        invariant cache.disk == After(disk0, iw, n)
        invariant cache.trace == tr + iw[..n]
      {
        InstallStep(area, disk0, n, tr);
        stop := InstallOne(n, recovering);
        if stop != Through {
          return;
        }
        n := n + 1;
      }
    }

    /** read_head (kernel/log.c:86-97). */
    method ReadHead() returns (stop: Stop)
      requires cache.Valid() && LogOk(area, cache.disk) && Using(cache.V(), [], p, {}, {})
      modifies `lh, `sched, cache
      ensures cache.Valid() && StopOk(stop) && cache.disk == old(cache.disk) && cache.trace == old(cache.trace)
      ensures stop == Through ==> Using(cache.V(), [], p, {}, {}) && lh == Recorded(cache.disk[area.start])
    {
      hide Using, ListOk, View.Ok;
      Clean(cache.V(), [], p, {}, {}, area.start);
      UsingAt(cache.V(), [], p, {}, {}, 0);
      var i;
      stop, i := Bread(area.start, [], {});
      if stop != Through {
        return;
      }
      Held(cache.V(), [], p, {} + {i}, {} + {i}, i);
      var h := cache.buf[i].data;
      var n := h[0];
      lh := [];
      var k := 0;
      while k < n
        invariant 0 <= k <= n && lh == h[1..1 + k]
        modifies `lh
      {
        lh := lh + [h[1 + k]];
        k := k + 1;
      }
      Brelse(i, [], {} + {i});
      assert {} + {i} - {i} == {};
    }

    /** install_trans and the clearing of the header (kernel/log.c:199-201, 120-122). */
    method InstallAndClear(recovering: bool) returns (stop: Stop, ghost n: nat)
      requires Sane() && lh == Recorded(cache.disk[area.start])
      requires Using(cache.V(), StillPinned(recovering, lh, 0), p, {}, {})
      modifies `lh, `sched, cache
      ensures cache.Valid() && StopOk(stop) && LogOk(area, old(cache.disk))
      ensures n <= |RecoverWrites(area, old(cache.disk))|
      ensures cache.trace == old(cache.trace) + RecoverWrites(area, old(cache.disk))[..n]
      ensures cache.disk == After(old(cache.disk), RecoverWrites(area, old(cache.disk)), n)
      ensures stop == Through ==> n == |RecoverWrites(area, old(cache.disk))| && Using(cache.V(), [], p, {}, {})
      ensures stop == Through ==> lh == []
    {
      hide Using, ListOk, View.Ok, After, HomeBlocks, RecoverWrites, InstallWrites, StillPinned;
      ghost var d, tr := cache.disk, cache.trace;
      var k;
      stop, k := InstallTrans(recovering);
      n := k;
      RecoverPart(area, d, k, tr);
      if stop != Through {
        return;
      }
      lh := [];
      stop := WriteHead([]);
      RecoverAssembled(area, d, tr);
      if stop == Through { n := n + 1; }
    }

    /** recover_from_log (kernel/log.c:117-123): it issues a prefix of the recovery writes, and all of them
        unless it is stopped. */
    method RecoverFromLog() returns (stop: Stop, ghost n: nat)
      requires cache.Valid() && LogOk(area, cache.disk) && Using(cache.V(), [], p, {}, {})
      modifies `lh, `sched, cache
      ensures cache.Valid() && StopOk(stop) && LogOk(area, old(cache.disk))
      ensures n <= |RecoverWrites(area, old(cache.disk))|
      ensures cache.trace == old(cache.trace) + RecoverWrites(area, old(cache.disk))[..n]
      ensures cache.disk == After(old(cache.disk), RecoverWrites(area, old(cache.disk)), n)
      ensures stop == Through ==> n == |RecoverWrites(area, old(cache.disk))| && Using(cache.V(), [], p, {}, {})
      ensures stop == Through ==> lh == []
    {
      hide Using, ListOk, View.Ok;
      n := 0;
      assert cache.trace + RecoverWrites(area, cache.disk)[..n] == cache.trace;
      stop := ReadHead();
      if stop == Through {
        stop, n := InstallAndClear(true);
      }
    }

    /** commit (kernel/log.c:194-203), whatever other processes read meanwhile: it issues a prefix of the commit
        writes of the transaction made up by the logged blocks and their latest contents, and all of them
        unless it is stopped. */
    method Commit() returns (stop: Stop, ghost n: nat)
      requires Sane() && Idle(area, cache.disk) && Using(cache.V(), lh, p, {}, {})
      modifies `lh, `sched, cache
      ensures cache.Valid() && StopOk(stop) && |old(cache.latest)| == |old(cache.disk)|
      ensures TxnOk(area, old(cache.disk), Logged(old(cache.latest), old(lh)))
      ensures var cw := CommitWrites(area, old(cache.disk), Logged(old(cache.latest), old(lh)));
              && n <= |cw| && cache.trace == old(cache.trace) + cw[..n] && cache.disk == After(old(cache.disk), cw, n)
              && (stop == Through ==> n == |cw|)
      ensures stop == Through ==> Using(cache.V(), [], p, {}, {}) && lh == []
    {
      hide Using, ListOk, View.Ok, SealWrites, RecoverWrites, Sealed, CommitWrites, After, Logged;
      UsingAt(cache.V(), lh, p, {}, {}, 0);
      ghost var d, tr := cache.disk, cache.trace;
      ghost var t := Logged(cache.latest, lh);
      n, stop := 0, Through;
      NothingWritten(d, CommitWrites(area, d, t), tr);
      if |lh| > 0 {
        stop, n := Seal(t);
        if stop != Through {
          return;
        }
        ghost var j;
        stop, j := InstallAndClear(false);
        CommitEnds(area, d, t, j, tr);
        n := n + j;
      }
    }

    /** commit up to its commit point (kernel/log.c:197-198). */
    method Seal(ghost t: Txn) returns (stop: Stop, ghost n: nat)
      requires Sane() && Idle(area, cache.disk) && Using(cache.V(), lh, p, {}, {}) && lh != []
      requires |cache.latest| == |cache.disk| && t == Logged(cache.latest, lh)
      modifies `sched, cache
      ensures cache.Valid() && StopOk(stop) && LogOk(area, old(cache.disk)) && TxnOk(area, old(cache.disk), t)
      ensures var cw := CommitWrites(area, old(cache.disk), t);
              n <= |cw| && cache.trace == old(cache.trace) + cw[..n] && cache.disk == After(old(cache.disk), cw, n)
      ensures stop == Through ==> n == |lh| + 1 && cache.disk == Sealed(area, old(cache.disk), t)
      ensures stop == Through ==> Sane() && lh == Recorded(cache.disk[area.start])
      ensures stop == Through ==> Using(cache.V(), StillPinned(false, lh, 0), p, {}, {})
      ensures stop == Through ==> cache.trace == old(cache.trace) + SealWrites(area, old(cache.disk), t)
    {
      hide Using, ListOk, View.Ok, SealWrites, RecoverWrites, Sealed, CommitWrites, After;
      ghost var d, tr := cache.disk, cache.trace;
      var k;
      stop, k := WriteLog();
      n := k;
      CommitBegins(area, d, t, k);
      if stop != Through {
        return;
      }
      stop := WriteHead(lh);
      SealAssembled(area, d, t, tr);
      CommitSeals(area, d, t);
      if stop == Through {
        n := n + 1;
        SealedFacts(area, d, t);
        assert StillPinned(false, lh, 0) == lh;
      }
    }
  }

  /** A commit begins with the log writes. */
  lemma CommitBegins(a: Area, d: seq<Block>, t: Txn, k: nat)
    requires LogOk(a, d) && TxnOk(a, d, t) && t.blocks != [] && k <= |t.blocks|
    ensures |LogWrites(a, t)| == |t.blocks| && InRange(LogWrites(a, t), |d|) && k <= |CommitWrites(a, d, t)|
    ensures LogWrites(a, t)[..k] == CommitWrites(a, d, t)[..k]
    ensures After(d, LogWrites(a, t), k) == After(d, CommitWrites(a, d, t), k)
  {
    hide RecoverWrites, Sealed, After;
    AfterPrefix(d, CommitWrites(a, d, t), LogWrites(a, t), k);
  }

  /** Then comes the header. */
  lemma CommitSeals(a: Area, d: seq<Block>, t: Txn)
    requires LogOk(a, d) && TxnOk(a, d, t) && t.blocks != []
    ensures SealWrites(a, d, t) == CommitWrites(a, d, t)[..|t.blocks| + 1]
    ensures Sealed(a, d, t) == After(d, CommitWrites(a, d, t), |t.blocks| + 1)
  {
    hide RecoverWrites, SealWrites, Sealed, LogOk, TxnOk;
    CommitTail(a, d, t, 0);
  }

  lemma SealedFacts(a: Area, d: seq<Block>, t: Txn)
    requires LogOk(a, d) && TxnOk(a, d, t)
    ensures LogOk(a, Sealed(a, d, t)) && |Sealed(a, d, t)| == |d| && Recorded(Sealed(a, d, t)[a.start]) == t.blocks
  {
    hide SealWrites;
    SealedOk(a, d, t);
  }

  /** What follows is a recovery. */
  lemma CommitEnds(a: Area, d: seq<Block>, t: Txn, j: nat, tr: seq<Write>)
    requires LogOk(a, d) && TxnOk(a, d, t) && t.blocks != [] && LogOk(a, Sealed(a, d, t))
    requires j <= |RecoverWrites(a, Sealed(a, d, t))|
    ensures var s, n := Sealed(a, d, t), |t.blocks| + 1 + j;
            && n <= |CommitWrites(a, d, t)| && After(s, RecoverWrites(a, s), j) == After(d, CommitWrites(a, d, t), n)
            && tr + SealWrites(a, d, t) + RecoverWrites(a, s)[..j] == tr + CommitWrites(a, d, t)[..n]
  {
    hide After, Sealed, RecoverWrites, SealWrites;
    SealedOk(a, d, t);
    CommitTail(a, d, t, j);
  }

  lemma RecoverPart(a: Area, d: seq<Block>, k: nat, tr: seq<Write>)
    requires LogOk(a, d) && k <= |InstallWrites(a, d)|
    ensures k <= |RecoverWrites(a, d)| && After(d, InstallWrites(a, d), k) == After(d, RecoverWrites(a, d), k)
    ensures tr + InstallWrites(a, d)[..k] == tr + RecoverWrites(a, d)[..k]
  {
    hide After, InstallWrites;
    AfterPrefix(d, RecoverWrites(a, d), InstallWrites(a, d), k);
  }

  /** The blocks still pinned when `tail` blocks are installed: recovery pins none. */
  ghost function StillPinned(recovering: bool, lh: seq<int>, tail: nat): seq<int>
    requires tail <= |lh|
  {
    if recovering then [] else lh[tail..]
  }

  /** The transaction that the logged blocks and their latest contents make up. */
  ghost function Logged(latest: seq<Block>, lh: seq<int>): (t: Txn)
    requires forall t | 0 <= t < |lh| :: 0 <= lh[t] < |latest|
    ensures t.blocks == lh && |t.data| == |lh|
  {
    Txn(lh, seq(|lh|, t requires 0 <= t < |lh| => latest[lh[t]]))
  }

  lemma NothingWritten(d: seq<Block>, ws: seq<Write>, tr: seq<Write>)
    requires InRange(ws, |d|)
    ensures After(d, ws, 0) == d && tr + ws[..0] == tr
  {
  }

  lemma LogBegins(a: Area, d: seq<Block>, t: Txn)
    requires |t.data| == |t.blocks| && a.start + 1 + |t.blocks| <= |d|
    ensures InRange(LogWrites(a, t), |d|) && After(d, LogWrites(a, t), 0) == d
  {
  }

  /** One more log block. */
  lemma LogStep(a: Area, d: seq<Block>, latest: seq<Block>, lh: seq<int>, n: nat)
    requires (forall t | 0 <= t < |lh| :: 0 <= lh[t] < |latest|) && n < |lh| && a.start + 1 + |lh| <= |d|
    requires InRange(LogWrites(a, Logged(latest, lh)), |d|)
    ensures var lw, l := LogWrites(a, Logged(latest, lh)), a.start + 1 + n;
            && lw[..n + 1] == lw[..n] + [Write(l, latest[lh[n]])]
            && After(d, lw, n + 1) == After(d, lw, n)[l := latest[lh[n]]]
  {
    TakeSnoc(LogWrites(a, Logged(latest, lh)), n);
  }

  /** Log blocks are not among the logged blocks. */
  lemma LoggedSame(a: Area, latest: seq<Block>, lh: seq<int>, l: nat, x: Block)
    requires HomeBlocks(a, |latest|, lh) && a.Has(l) && l < |latest|
    ensures Logged(latest[l := x], lh) == Logged(latest, lh)
  {
  }
}
