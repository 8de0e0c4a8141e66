/** Log space reservation of kernel/log.c: begin_op, log_write and end_op as atomic steps under
    `log.lock`, in any interleaving of operations. */
module Reservation {
  import opened LogSpec

  /** The guarded fields of `struct log`; `used[o]` counts the fresh blocks operation `o`, between
      its begin_op and end_op, has added to the log. */
  datatype State = State(lh: seq<int>, outstanding: int, committing: bool, used: map<nat, nat>)

  datatype Event =
    | Begin(o: nat)              // begin_op gets past its loop
    | LogWrite(o: nat, b: int)   // log_write of block b inside operation o
    | End(o: nat)                // end_op up to releasing the lock
    | Finish                     // commit() has returned and log.committing is cleared

  const Init := State([], 0, false, map[])

  /** begin_op's loop exit test (kernel/log.c:131-137). */
  predicate Admits(s: State) {
    !s.committing && |s.lh| + (s.outstanding + 1) * MAXOPBLOCKS <= LOGSIZE
  }

  /** What callers do: operations are bracketed, and each adds at most MAXOPBLOCKS fresh blocks. */
  predicate Enabled(s: State, e: Event) {
    match e
    case Begin(o) => o !in s.used && Admits(s)
    case LogWrite(o, b) => o in s.used && (b in s.lh || s.used[o] < MAXOPBLOCKS)
    case End(o) => o in s.used
    case Finish => s.committing
  }

  function Next(s: State, e: Event): State {
    match e
    case Begin(o) => s.(outstanding := s.outstanding + 1, used := s.used[o := 0])
    case LogWrite(o, b) =>
      if b in s.lh || o !in s.used then s
      else s.(lh := s.lh + [b], used := s.used[o := s.used[o] + 1])
    case End(o) =>
      s.(outstanding := s.outstanding - 1, committing := s.outstanding - 1 == 0, used := s.used - {o})
    case Finish => s.(lh := [], committing := false)
  }

  /** The reservations not yet used up. */
  ghost function Unused(used: map<nat, nat>): (n: int)
  {
    if used == map[] then 0
    else
      var o :| o in used;
      MAXOPBLOCKS - used[o] + Unused(used - {o})
  }

  lemma {:induction false} UnusedAt(used: map<nat, nat>, o: nat)
    requires o in used
    ensures Unused(used) == MAXOPBLOCKS - used[o] + Unused(used - {o})
    decreases used
  {
    var x :| x in used && Unused(used) == MAXOPBLOCKS - used[x] + Unused(used - {x});
    if x != o {
      UnusedAt(used - {x}, o);
      UnusedAt(used - {o}, x);
      assert used - {x} - {o} == used - {o} - {x};
    }
  }

  lemma {:induction false} UnusedBound(used: map<nat, nat>)
    requires forall o | o in used :: used[o] <= MAXOPBLOCKS
    ensures 0 <= Unused(used) <= MAXOPBLOCKS * |used|
    decreases used
  {
    if used != map[] {
      var o :| o in used;
      UnusedAt(used, o);
      UnusedBound(used - {o});
      assert |used - {o}| == |used| - 1 by { assert (used - {o}).Keys == used.Keys - {o}; }
    }
  }

  /** The logged blocks and the unused reservations of the outstanding operations fit the log. */
  ghost predicate Inv(s: State) {
    && s.outstanding == |s.used|
    && (s.committing ==> s.outstanding == 0)
    && (forall o | o in s.used :: s.used[o] <= MAXOPBLOCKS)
    && |s.lh| + Unused(s.used) <= LOGSIZE
    && AllDiffer(s.lh)
  }

  lemma StepInv(s: State, e: Event)
    requires Inv(s) && Enabled(s, e)
    ensures Inv(Next(s, e))
  {
    var s' := Next(s, e);
    match e
    case Begin(o) =>
      UnusedAt(s'.used, o);
      assert s'.used - {o} == s.used;
      UnusedBound(s.used);
    case LogWrite(o, b) =>
      if b !in s.lh {
        UnusedAt(s.used, o);
        UnusedAt(s'.used, o);
        assert s'.used - {o} == s.used - {o};
        forall i: nat, j: nat | i < j < |s'.lh| ensures Differ(s'.lh, i, j) {
          if j < |s.lh| { assert Differ(s.lh, i, j); }
        }
      }
    case End(o) =>
      UnusedAt(s.used, o);
      assert s'.used.Keys == s.used.Keys - {o};
    case Finish =>
      UnusedBound(s.used);
      assert s.used.Keys == {};
  }

  /** A run: the states `ss` linked by the events `es`. */
  ghost predicate IsRun(ss: seq<State>, es: seq<Event>) {
    && |ss| == |es| + 1 && ss[0] == Init
    && forall i: nat | i < |es| :: Linked(ss, es, i)
  }

  ghost predicate Linked(ss: seq<State>, es: seq<Event>, i: nat)
    requires |ss| == |es| + 1 && i < |es|
  {
    Enabled(ss[i], es[i]) && ss[i + 1] == Next(ss[i], es[i])
  }

  /** In every run, at every point: logged blocks plus unused reservations fit LOGSIZE, the logged
      blocks are distinct, and no operation is outstanding while committing. */
  lemma {:induction false} RunInv(ss: seq<State>, es: seq<Event>, n: nat)
    requires IsRun(ss, es) && n <= |es|
    ensures Inv(ss[n])
  {
    if n == 0 {
      assert ss[0].used == map[];
    } else {
      RunInv(ss, es, n - 1);
      assert Linked(ss, es, n - 1);
      StepInv(ss[n - 1], es[n - 1]);
    }
  }

  /** log_write's first test (kernel/log.c:220). */
  predicate TooBig(s: State, size: int) {
    |s.lh| >= LOGSIZE || |s.lh| >= size - 1
  }

  /** No run reaches end_op's "log.committing" panic or log_write's "outside of trans" panic, and a
      fresh append panics exactly when the log holds size - 1 blocks already: never when the log
      area has more than LOGSIZE blocks. */
  lemma NoPanic(ss: seq<State>, es: seq<Event>, n: nat, size: int)
    requires IsRun(ss, es) && n < |es|
    ensures es[n].End? ==> !ss[n].committing
    ensures es[n].LogWrite? ==> ss[n].outstanding >= 1
    ensures es[n].LogWrite? && es[n].b !in ss[n].lh ==> (TooBig(ss[n], size) <==> |ss[n].lh| >= size - 1)
    ensures es[n].LogWrite? && es[n].b !in ss[n].lh && size > LOGSIZE ==> !TooBig(ss[n], size)
  {
    RunInv(ss, es, n);
    assert Linked(ss, es, n);
    var s := ss[n];
    if es[n].End? || es[n].LogWrite? {
      assert es[n].o in s.used.Keys;
      if es[n].LogWrite? && es[n].b !in s.lh {
        UnusedAt(s.used, es[n].o);
        UnusedBound(s.used - {es[n].o});
      }
    }
  }

  /** Three operations that between them log `n` fresh blocks. */
  function FullRun(n: nat): (es: seq<Event>)
    requires n <= LOGSIZE
    ensures |es| == 3 + n
  {
    if n == 0 then [Begin(0), Begin(1), Begin(2)]
    else FullRun(n - 1) + [LogWrite((n - 1) / MAXOPBLOCKS, n)]
  }

  /** How many of the first `n` blocks operation `k` logs, when each logs ten in turn. */
  function Share(n: nat, k: nat): nat {
    if n <= k * MAXOPBLOCKS then 0 else if n >= (k + 1) * MAXOPBLOCKS then MAXOPBLOCKS else n - k * MAXOPBLOCKS
  }

  /** The state after it. */
  function FullState(n: nat): State
  {
    State(seq(n, i => i + 1), 3, false, map[0 := Share(n, 0), 1 := Share(n, 1), 2 := Share(n, 2)])
  }

  lemma FullStep(n: nat)
    requires 1 <= n <= LOGSIZE
    ensures var e := LogWrite((n - 1) / MAXOPBLOCKS, n);
            Enabled(FullState(n - 1), e) && Next(FullState(n - 1), e) == FullState(n)
  {
    var s := FullState(n - 1);
    assert n !in s.lh;
    assert s.lh + [n] == FullState(n).lh;
    var o := (n - 1) / MAXOPBLOCKS;
    assert o in s.used && s.used[o] < MAXOPBLOCKS;
    assert s.used[o := s.used[o] + 1] == FullState(n).used;
  }

  lemma FullStart(ss: seq<State>)
    requires ss == [Init, Next(Init, Begin(0)), Next(Next(Init, Begin(0)), Begin(1)), FullState(0)]
    ensures IsRun(ss, FullRun(0))
  {
    assert ss[2].used == map[0 := 0, 1 := 0];
    assert Next(ss[2], Begin(2)) == FullState(0);
    assert Linked(ss, FullRun(0), 0) && Linked(ss, FullRun(0), 1) && Linked(ss, FullRun(0), 2);
  }

  lemma {:induction false} FullRunReaches(n: nat) returns (ss: seq<State>)
    requires n <= LOGSIZE
    ensures IsRun(ss, FullRun(n)) && ss[3 + n] == FullState(n)
    ensures n > 0 ==> ss[2 + n] == FullState(n - 1)
  {
    if n == 0 {
      ss := [Init, Next(Init, Begin(0)), Next(Next(Init, Begin(0)), Begin(1)), FullState(0)];
      FullStart(ss);
    } else {
      var ss' := FullRunReaches(n - 1);
      ss := ss' + [FullState(n)];
      var es, es' := FullRun(n), FullRun(n - 1);
      FullStep(n);
      hide FullState, Enabled, Next;
      forall i: nat | i < |es| ensures Linked(ss, es, i) {
        if i < |es'| { assert Linked(ss', es', i); }
      }
    }
  }

  /** When the log area has at most LOGSIZE blocks, as the one mkfs makes does (mkfs/mkfs.c:25), the
      admission test does not keep log_write from panicking: it lets three operations in, and they
      may fill the log. With NoPanic: fresh appends are safe if and only if size > LOGSIZE. */
  lemma SmallLogPanics(size: nat) returns (ss: seq<State>, es: seq<Event>)
    requires 1 <= size <= LOGSIZE
    ensures IsRun(ss, es) && es != [] && es[|es| - 1].LogWrite? && es[|es| - 1].b !in ss[|es| - 1].lh
    ensures TooBig(ss[|es| - 1], size)
  {
    ss := FullRunReaches(size);
    es := FullRun(size);
  }
}
