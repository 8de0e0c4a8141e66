/** Readers and writers of a pipe (kernel/pipe.c) as interleaved steps of any number of processes around the ring
    buffer, with sleep and wakeup (kernel/proc.c:545-590) in their own steps.

    A process about to sleep holds its own p->lock from before it releases pi->lock until it is SLEEPING; wakeup
    takes each process's p->lock in turn. */
module Pipe {
  import opened PipeRing

  /** Sleeping readers wait on &pi->nread, writers on &pi->nwrite. */
  datatype Chan = Readers | Writers

  /** Where a process is in pipewrite, piperead or pipeclose, with the bytes still to move. */
  datatype Pc =
    | Out
    | WriteWait(left: nat)      // acquire(&pi->lock), at first or after sleep
    | Writing(left: nat)        // with the lock, at the loop's test          pipe.c:83
    | WriteDoze(left: nat)      // in sleep, with pi->lock and p->lock        proc.c:557
    | WriteNod(left: nat)       // in sleep, with p->lock only                proc.c:558
    | WriteSleep(left: nat)     // SLEEPING on &pi->nwrite                    proc.c:562
    | ReadWait(left: nat)
    | Reading(left: nat)        // with the lock, at the first loop's test    pipe.c:113
    | ReadDoze(left: nat)
    | ReadNod(left: nat)
    | ReadSleep(left: nat)      // SLEEPING on &pi->nread
    | Copying(left: nat)        // with the lock, in the second loop          pipe.c:120
    | CloseWait(w: bool)        // pipeclose: acquire(&pi->lock)              pipe.c:61
    | Rouse(chan: Chan, k: nat, next: Pc)   // with the lock, wakeup at process k     proc.c:581

  predicate HasLock(pc: Pc) { pc.Writing? || pc.WriteDoze? || pc.Reading? || pc.ReadDoze? || pc.Copying? || pc.Rouse? }

  /** With its own p->lock. */
  predicate HasPlock(pc: Pc) { pc.WriteDoze? || pc.WriteNod? || pc.ReadDoze? || pc.ReadNod? }

  /** Asleep on the channel, or beyond the point where it can be told by pi->lock. */
  predicate Asleep(pc: Pc, c: Chan) {
    if c == Readers then pc.ReadSleep? || pc.ReadNod? else pc.WriteSleep? || pc.WriteNod?
  }

  predicate InWrite(pc: Pc) {
    pc.WriteWait? || pc.Writing? || pc.WriteDoze? || pc.WriteNod? || pc.WriteSleep? || (pc.Rouse? && pc.next.WriteDoze?)
  }

  predicate InRead(pc: Pc) {
    pc.ReadWait? || pc.Reading? || pc.ReadDoze? || pc.ReadNod? || pc.ReadSleep? || pc.Copying?
  }

  /** About to sleep because the pipe is full. */
  predicate Filled(pc: Pc) { pc.WriteDoze? || (pc.Rouse? && pc.next.WriteDoze?) }

  /** `lock` is 0, or p + 1 for the process that holds pi->lock. `got` is what readers took out. `unsaid` counts the
      bytes that the holder of the lock put in since it last woke readers. `rend` and `wend` say whether any
      file descriptor refers to the end. */
  datatype State = State(
    pc: seq<Pc>, lock: nat, b: Buffer, got: seq<nat>, readopen: bool, writeopen: bool,
    rend: bool, wend: bool, unsaid: nat)
  {
    ghost predicate LockOk(p: nat)
      requires p < |pc|
    {
      HasLock(pc[p]) <==> lock == p + 1
    }

    ghost predicate EndsOk(p: nat)
      requires p < |pc|
    {
      && (InRead(pc[p]) ==> rend)
      && (InWrite(pc[p]) ==> wend)
      && (pc[p].CloseWait? ==> if pc[p].w then !wend else !rend)
      && (pc[p].Rouse? ==> pc[p].k <= |pc| && (pc[p].next == Out || (pc[p].next.WriteDoze? && pc[p].chan == Readers)))
    }

    /** The holder of the lock will still wake process `q` if it sleeps on the channel. */
    ghost predicate Pending(c: Chan, q: nat) {
      0 < lock <= |pc| && var h := pc[lock - 1]; (c == Writers && h.Copying?) || (h.Rouse? && h.chan == c && h.k <= q)
    }

    ghost predicate Passed(c: Chan, q: nat) {
      0 < lock <= |pc| && var h := pc[lock - 1]; h.Rouse? && h.chan == c && q < h.k
    }

    ghost predicate SweptOk(q: nat)
      requires q < |pc|
    {
      !(Passed(Readers, q) && Asleep(pc[q], Readers)) && !(Passed(Writers, q) && Asleep(pc[q], Writers))
    }

    /** A sleeping writer finds the pipe full and its read end open, or a wakeup is still to come. */
    ghost predicate WriterOk(q: nat)
      requires q < |pc|
    {
      && (Asleep(pc[q], Writers) ==> (readopen && b.Full()) || Pending(Writers, q))
      && (Filled(pc[q]) ==> readopen && b.Full())
    }

    /** A sleeping reader finds the write end open, or a wakeup is still to come. */
    ghost predicate ReaderOk(q: nat)
      requires q < |pc|
    {
      && (Asleep(pc[q], Readers) ==> writeopen || Pending(Readers, q))
      && (pc[q].ReadDoze? ==> writeopen && b.Empty())
    }

    ghost predicate BufferOk() {
      b.Ok() && got == b.ins[..b.outs]
    }

    ghost predicate SaidOk() {
      unsaid > 0 ==> 0 < lock <= |pc| && pc[lock - 1].Writing? && !b.Empty()
    }

    ghost predicate Inv() {
      && lock <= |pc| && BufferOk() && SaidOk() && (wend ==> writeopen) && (rend ==> readopen)
      && (forall p: nat | p < |pc| :: LockOk(p))
      && (forall p: nat | p < |pc| :: EndsOk(p))
      && (forall p: nat | p < |pc| :: SweptOk(p))
      && (forall p: nat | p < |pc| :: WriterOk(p))
      && (forall p: nat | p < |pc| :: ReaderOk(p))
    }
  }

  /** What becomes of a process that is woken. */
  function Woken(pc: Pc): Pc {
    if pc.ReadSleep? then ReadWait(pc.left) else if pc.WriteSleep? then WriteWait(pc.left) else pc
  }

  /** The steps of process `p`. */
  datatype Step =
    | CallWrite(n: nat) | CallRead(n: nat) | CallClose(w: bool)
    | Lock
    | PutByte(ch: nat)      // pipe.c:92-96
    | SleepFull             // pipe.c:88-90, up to wakeup
    | EndWrite              // pipe.c:93-94, 99: all written, or copyin failed
    | Quit                  // pipe.c:84-87: read end closed, or killed
    | SleepEmpty            // pipe.c:118, up to p->lock
    | QuitRead              // pipe.c:114-116
    | StartCopy             // pipe.c:113, 120
    | GetByte               // pipe.c:121-123
    | EndRead               // pipe.c:127
    | RouseOne              // proc.c:581-587
    | RouseDone             // and release(&pi->lock), or on to sleep
    | Release               // sleep's release(lk)          proc.c:558
    | Nap                   // SLEEPING, sched              proc.c:561-564
    | Killed                // kill wakes a sleeper         proc.c:604-606

  ghost predicate Can(s: State, p: nat, e: Step)
    requires p < |s.pc|
  {
    var pc := s.pc[p];
    match e
    case CallWrite(_) => pc == Out && s.wend
    case CallRead(_) => pc == Out && s.rend
    case CallClose(w) =>
      pc == Out && if w then s.wend && forall q: nat | q < |s.pc| ::
          !InWrite(s.pc[q]) else s.rend && forall q: nat | q < |s.pc| :: !InRead(s.pc[q])
    case Lock => (pc.WriteWait? || pc.ReadWait? || pc.CloseWait?) && s.lock == 0
    case PutByte(_) => pc.Writing? && pc.left > 0 && s.readopen && !s.b.Full()
    case SleepFull => pc.Writing? && pc.left > 0 && s.readopen && s.b.Full()
    case EndWrite => pc.Writing? && (pc.left == 0 || (s.readopen && !s.b.Full()))
    case Quit => pc.Writing? && pc.left > 0
    case SleepEmpty => pc.Reading? && s.b.Empty() && s.writeopen
    case QuitRead => pc.Reading? && s.b.Empty() && s.writeopen
    case StartCopy => pc.Reading? && !(s.b.Empty() && s.writeopen)
    case GetByte => pc.Copying? && pc.left > 0 && !s.b.Empty()
    case EndRead => pc.Copying?
    case RouseOne => pc.Rouse? && pc.k < |s.pc| && !HasPlock(s.pc[pc.k])
    case RouseDone => pc.Rouse? && pc.k == |s.pc|
    case Release => pc.WriteDoze? || pc.ReadDoze?
    case Nap => pc.WriteNod? || pc.ReadNod?
    case Killed => pc.WriteSleep? || pc.ReadSleep?
  }

  /** Where the process is after the step. */
  ghost function NewPc(s: State, p: nat, e: Step): Pc
    requires p < |s.pc| && Can(s, p, e)
  {
    var pc := s.pc[p];
    match e
    case CallWrite(n) => WriteWait(n)
    case CallRead(n) => ReadWait(n)
    case CallClose(w) => CloseWait(w)
    case Lock =>
      if pc.WriteWait? then Writing(pc.left) else if pc.ReadWait? then Reading(pc.left)
        else Rouse(if pc.w then Readers else Writers, 0, Out)
    case PutByte(_) => Writing(pc.left - 1)
    case SleepFull => Rouse(Readers, 0, WriteDoze(pc.left))
    case EndWrite => Rouse(Readers, 0, Out)
    case Quit => Out
    case SleepEmpty => ReadDoze(pc.left)
    case QuitRead => Out
    case StartCopy => Copying(pc.left)
    case GetByte => Copying(pc.left - 1)
    case EndRead => Rouse(Writers, 0, Out)
    case RouseOne => Rouse(pc.chan, pc.k + 1, pc.next)
    case RouseDone => pc.next
    case Release => if pc.WriteDoze? then WriteNod(pc.left) else ReadNod(pc.left)
    case Nap => if pc.WriteNod? then WriteSleep(pc.left) else ReadSleep(pc.left)
    case Killed => Woken(pc)
  }

  /** wakeup at process `k` changes it if it sleeps on the channel. */
  ghost function Others(s: State, p: nat, e: Step): seq<Pc>
    requires p < |s.pc| && Can(s, p, e)
  {
    var pc := s.pc[p];
    if e.RouseOne? && Asleep(s.pc[pc.k], pc.chan) then s.pc[pc.k := Woken(s.pc[pc.k])] else s.pc
  }

  /** pi->lock after the step. */
  ghost function NewLock(s: State, p: nat, e: Step): nat
    requires p < |s.pc| && Can(s, p, e)
  {
    if e.Lock? then p + 1
    else if e.Quit? || e.QuitRead? || e.Release? || (e.RouseDone? && s.pc[p].next == Out) then 0
    else s.lock
  }

  ghost function Do(s: State, p: nat, e: Step): State
    requires p < |s.pc| && |s.b.data| == PIPESIZE && Can(s, p, e)
  {
    var closes := e.Lock? && s.pc[p].CloseWait?;
    State(
      Others(s, p, e)[p := NewPc(s, p, e)], NewLock(s, p, e),
      if e.PutByte? then s.b.Put(e.ch) else if e.GetByte? then s.b.Get() else s.b,
      if e.GetByte? then s.got + [s.b.Byte()] else s.got,
      s.readopen && !(closes && !s.pc[p].w), s.writeopen && !(closes && s.pc[p].w),
      s.rend && !(e.CallClose? && !e.w), s.wend && !(e.CallClose? && e.w),
      if e.PutByte? then s.unsaid + 1 else if e.Lock? || e.SleepFull? || e.EndWrite? || e.Quit? then 0 else s.unsaid)
  }

  /** What a step does to the buffer. */
  lemma StepBuffer(s: State, p: nat, e: Step)
    requires s.Inv() && p < |s.pc| && Can(s, p, e)
    ensures Do(s, p, e).BufferOk() && Do(s, p, e).SaidOk() && |Do(s, p, e).pc| == |s.pc|
    ensures e.GetByte? ==> !Do(s, p, e).b.Full()
  {
    hide Buffer.Ok, Buffer.Put, Buffer.Get, Buffer.Full, Buffer.Empty, Buffer.Byte;
    assert s.LockOk(p);
    if e.PutByte? { PutOk(s.b, e.ch); PutHistory(s.b, e.ch); }
    if e.GetByte? { GetOk(s.b); GetHistory(s.b); }
  }

  lemma PutHistory(b: Buffer, ch: nat)
    requires b.Ok()
    ensures b.Put(ch).outs == b.outs && b.Put(ch).ins[..b.outs] == b.ins[..b.outs]
  {
  }

  lemma GetHistory(b: Buffer)
    requires b.Ok() && b.outs < |b.ins| && b.Byte() == b.ins[b.outs]
    ensures b.Get().outs == b.outs + 1 && b.Get().ins == b.ins && b.ins[..b.outs + 1] == b.ins[..b.outs] + [b.Byte()]
  {
  }

  /** A step that process `p` can take, as it concerns process `q`. */
  ghost predicate Near(s: State, p: nat, e: Step, q: nat) {
    && p < |s.pc| && q < |s.pc| && |s.b.data| == PIPESIZE && Can(s, p, e) && s.lock <= |s.pc|
    && s.LockOk(p) && s.LockOk(q) && s.EndsOk(p)
  }

  /** What a step does to another process. */
  lemma OtherPc(s: State, p: nat, e: Step, q: nat)
    requires p < |s.pc| && q < |s.pc| && |s.b.data| == PIPESIZE && Can(s, p, e) && q != p
    ensures q < |Do(s, p, e).pc|
    ensures Do(s, p, e).pc[q] == if e.RouseOne? && q == s.pc[p].k
            && Asleep(s.pc[q], s.pc[p].chan) then Woken(s.pc[q]) else s.pc[q]
  {
    hide Buffer.Ok, Buffer.Put, Buffer.Get, Buffer.Full, Buffer.Empty, Buffer.Byte;
  }

  lemma StepLock(s: State, p: nat, e: Step, q: nat)
    requires Near(s, p, e, q)
    ensures |Do(s, p, e).pc| == |s.pc| && Do(s, p, e).LockOk(q)
  {
    hide Buffer.Ok, Buffer.Put, Buffer.Get, Buffer.Full, Buffer.Empty, Buffer.Byte;
    if q != p { OtherPc(s, p, e, q); }
  }

  lemma StepEndsAt(s: State, p: nat, e: Step, q: nat)
    requires Near(s, p, e, q) && s.EndsOk(q)
    ensures |Do(s, p, e).pc| == |s.pc| && Do(s, p, e).EndsOk(q)
  {
    hide Buffer.Ok, Buffer.Put, Buffer.Get, Buffer.Full, Buffer.Empty, Buffer.Byte;
    if q != p { OtherPc(s, p, e, q); }
  }

  /** Who falls asleep. */
  lemma StepAsleep(s: State, p: nat, e: Step, c: Chan, q: nat)
    requires Near(s, p, e, q)
    ensures q < |Do(s, p, e).pc|
    ensures Asleep(Do(s, p, e).pc[q], c) ==> Asleep(s.pc[q], c) || (q == p && e.Release? && HasLock(s.pc[p]))
    ensures Asleep(Do(s, p, e).pc[q], c) && e.RouseOne? && q == s.pc[p].k ==> s.pc[p].chan != c
  {
    hide Buffer.Ok, Buffer.Put, Buffer.Get, Buffer.Full, Buffer.Empty, Buffer.Byte;
    if q != p { OtherPc(s, p, e, q); }
  }

  /** How far wakeups get. */
  lemma StepSweep(s: State, p: nat, e: Step, c: Chan, q: nat)
    requires Near(s, p, e, q)
    ensures Do(s, p, e).Passed(c, q) ==> s.Passed(c, q) || (e.RouseOne? && s.pc[p].chan == c && q == s.pc[p].k)
    ensures s.Pending(c, q) ==> Do(s, p, e).Pending(c, q) || (e.RouseOne? && s.pc[p].chan == c && q == s.pc[p].k)
  {
    hide Buffer.Ok, Buffer.Put, Buffer.Get, Buffer.Full, Buffer.Empty, Buffer.Byte;
    if 0 < s.lock && s.lock != p + 1 { OtherPc(s, p, e, s.lock - 1); }
  }

  lemma StepSwept(s: State, p: nat, e: Step, q: nat)
    requires Near(s, p, e, q) && s.SweptOk(q)
    ensures |Do(s, p, e).pc| == |s.pc| && Do(s, p, e).SweptOk(q)
  {
    hide Do, State.Passed, Asleep, HasLock;
    SamePcs(s, p, e);
    StepAsleep(s, p, e, Readers, q);
    StepAsleep(s, p, e, Writers, q);
    StepSweep(s, p, e, Readers, q);
    StepSweep(s, p, e, Writers, q);
    ReleaseFree(s, p, e, q);
  }

  lemma SamePcs(s: State, p: nat, e: Step)
    requires Near(s, p, e, p)
    ensures |Do(s, p, e).pc| == |s.pc|
  {
  }

  /** sleep's release of the lock ends no wakeup. */
  lemma ReleaseFree(s: State, p: nat, e: Step, q: nat)
    requires Near(s, p, e, q)
    ensures e.Release? ==> !Do(s, p, e).Passed(Readers, q) && !Do(s, p, e).Passed(Writers, q)
  {
  }

  lemma StepWriter(s: State, p: nat, e: Step, q: nat)
    requires Near(s, p, e, q) && s.WriterOk(q) && s.EndsOk(q) && (s.rend ==> s.readopen) && s.WriterOk(p)
    ensures |Do(s, p, e).pc| == |s.pc| && Do(s, p, e).WriterOk(q)
  {
    hide Buffer.Ok, Buffer.Put, Buffer.Get, Buffer.Full, Buffer.Empty, Buffer.Byte;
    hide State.Pending;
    StepAsleep(s, p, e, Writers, q);
    StepSweep(s, p, e, Writers, q);
    WriterCalls(s, p, e, q);
    if q != p { OtherPc(s, p, e, q); }
  }

  /** What ends a full pipe, or the read end, promises a wakeup. */
  lemma WriterCalls(s: State, p: nat, e: Step, q: nat)
    requires Near(s, p, e, q)
    ensures e.GetByte? || (e.Lock? && s.pc[p] == CloseWait(false)) ==> Do(s, p, e).Pending(Writers, q)
  {
    hide Buffer.Ok, Buffer.Put, Buffer.Get, Buffer.Full, Buffer.Empty, Buffer.Byte;
  }

  lemma StepReader(s: State, p: nat, e: Step, q: nat)
    requires Near(s, p, e, q) && s.ReaderOk(q) && s.ReaderOk(p) && (s.wend ==> s.writeopen)
    ensures |Do(s, p, e).pc| == |s.pc| && Do(s, p, e).ReaderOk(q)
  {
    hide Buffer.Ok, Buffer.Put, Buffer.Get, Buffer.Full, Buffer.Empty, Buffer.Byte;
    hide State.Pending;
    StepAsleep(s, p, e, Readers, q);
    StepSweep(s, p, e, Readers, q);
    ReaderCalls(s, p, e, q);
    if q != p { OtherPc(s, p, e, q); }
  }

  lemma ReaderCalls(s: State, p: nat, e: Step, q: nat)
    requires Near(s, p, e, q)
    ensures e.SleepFull? || e.EndWrite? || (e.Lock? && s.pc[p] == CloseWait(true)) ==> Do(s, p, e).Pending(Readers, q)
  {
    hide Buffer.Ok, Buffer.Put, Buffer.Get, Buffer.Full, Buffer.Empty, Buffer.Byte;
  }

  /** What every step of every process keeps. */
  lemma StepInv(s: State, p: nat, e: Step)
    requires s.Inv() && p < |s.pc| && Can(s, p, e)
    ensures Do(s, p, e).Inv()
  {
    hide Buffer.Put, Buffer.Get, Buffer.Full, Buffer.Empty, Buffer.Byte;
    hide Can, State.LockOk, State.EndsOk, State.SweptOk, State.WriterOk, State.ReaderOk;
    var s' := Do(s, p, e);
    StepBuffer(s, p, e);
    StepEnds(s, p, e);
    forall q: nat | q < |s.pc| ensures Near(s, p, e, q) { assert s.LockOk(p) && s.LockOk(q) && s.EndsOk(p); }
    forall q: nat | q < |s'.pc| ensures s'.LockOk(q) { StepLock(s, p, e, q); }
    forall q: nat | q < |s'.pc| ensures s'.EndsOk(q) { assert s.EndsOk(q); StepEndsAt(s, p, e, q); }
    forall q: nat | q < |s'.pc| ensures s'.SweptOk(q) { assert s.SweptOk(q); StepSwept(s, p, e, q); }
    forall q: nat | q < |s'.pc| ensures s'.WriterOk(q) {
      assert s.WriterOk(q) && s.WriterOk(p) && s.EndsOk(q);
      StepWriter(s, p, e, q);
    }
    forall q: nat | q < |s'.pc| ensures s'.ReaderOk(q) {
      assert s.ReaderOk(q) && s.ReaderOk(p);
      StepReader(s, p, e, q);
    }
  }

  lemma StepEnds(s: State, p: nat, e: Step)
    requires s.Inv() && p < |s.pc| && Can(s, p, e)
    ensures var s' := Do(s, p, e); s'.lock <= |s'.pc| && (s'.wend ==> s'.writeopen) && (s'.rend ==> s'.readopen)
  {
    hide Buffer.Ok, Buffer.Put, Buffer.Get, Buffer.Full, Buffer.Empty, Buffer.Byte;
    assert s.LockOk(p) && s.EndsOk(p);
  }

  ghost predicate Init(s: State) {
    && s.lock == 0 && s.b == NewBuffer() && s.got == [] && s.readopen && s.writeopen
    && s.rend && s.wend && s.unsaid == 0
    && forall p: nat | p < |s.pc| :: s.pc[p] == Out
  }

  datatype Act = Act(p: nat, e: Step)

  ghost predicate Linked(run: seq<State>, acts: seq<Act>, i: nat)
    requires i + 1 < |run| == |acts| + 1
  {
    var s, a := run[i], acts[i];
    a.p < |s.pc| && |s.b.data| == PIPESIZE && Can(s, a.p, a.e) && run[i + 1] == Do(s, a.p, a.e)
  }

  /** A run of any number of readers and writers. */
  ghost predicate IsRun(run: seq<State>, acts: seq<Act>) {
    |run| == |acts| + 1 && Init(run[0]) && forall i: nat | i < |acts| :: Linked(run, acts, i)
  }

  lemma InitInv(s: State)
    requires Init(s)
    ensures s.Inv()
  {
    forall p: nat | p < |s.pc| ensures s.LockOk(p) && s.EndsOk(p) && s.SweptOk(p) && s.WriterOk(p) && s.ReaderOk(p) {
      assert s.pc[p] == Out;
    }
  }

  lemma {:induction false} RunInv(run: seq<State>, acts: seq<Act>, i: nat)
    requires IsRun(run, acts) && i < |run|
    ensures run[i].Inv()
  {
    hide State.Inv, Do, Can;
    if i == 0 {
      InitInv(run[0]);
    } else {
      RunInv(run, acts, i - 1);
      assert Linked(run, acts, i - 1);
      StepInv(run[i - 1], acts[i - 1].p, acts[i - 1].e);
    }
  }

  /** First in, first out: in every run, however often the 32-bit counters wrap, the bytes that readers took out
      of the ring are a prefix of those that writers put in, and at most PIPESIZE bytes are under way. */
  lemma Fifo(run: seq<State>, acts: seq<Act>, i: nat)
    requires IsRun(run, acts) && i < |run|
    ensures run[i].got <= run[i].b.ins && |run[i].b.ins| - |run[i].got| <= PIPESIZE
  {
    RunInv(run, acts, i);
  }

  /** In every run, with the lock free, a writer sleeps only on a full pipe whose read end is open. */
  lemma WritersSleepFull(run: seq<State>, acts: seq<Act>, i: nat, p: nat)
    requires IsRun(run, acts) && i < |run| && p < |run[i].pc| && run[i].lock == 0 && Asleep(run[i].pc[p], Writers)
    ensures run[i].b.Full() && run[i].readopen
  {
    RunInv(run, acts, i);
    assert run[i].WriterOk(p);
  }

  /** Readers sleep only on an empty pipe whose write end is open. */
  ghost predicate ReadersFine(s: State) {
    forall q: nat | q < |s.pc| && Asleep(s.pc[q], Readers) :: s.b.Empty() && s.writeopen
  }

  /** A writer gives up that has put bytes in since it took the lock, while a reader sleeps: the branch that
      returns without a wakeup (kernel/pipe.c:84-87). */
  ghost predicate Harmful(s: State, e: Step) {
    e.Quit? && s.unsaid > 0 && exists q: nat :: q < |s.pc| && Asleep(s.pc[q], Readers)
  }

  /** A sleeping reader finds the pipe empty, or a wakeup is still to come. */
  ghost predicate Fine(s: State, q: nat)
    requires q < |s.pc|
  {
    Asleep(s.pc[q], Readers) ==> s.Pending(Readers, q) || (s.writeopen && (s.b.Empty() || s.unsaid > 0))
  }

  lemma StepFine(s: State, p: nat, e: Step, q: nat)
    requires Near(s, p, e, q) && s.SaidOk() && s.ReaderOk(p) && (s.wend ==> s.writeopen) && Fine(s, q) && !Harmful(s, e)
    ensures |Do(s, p, e).pc| == |s.pc| && Fine(Do(s, p, e), q)
  {
    hide Buffer.Ok, Buffer.Put, Buffer.Get, Buffer.Full, Buffer.Empty, Buffer.Byte;
    StepAsleep(s, p, e, Readers, q);
    StepSweep(s, p, e, Readers, q);
    ReaderCalls(s, p, e, q);
  }

  lemma {:induction false} RunFine(run: seq<State>, acts: seq<Act>, i: nat, q: nat)
    requires IsRun(run, acts) && i < |run| && q < |run[i].pc| && forall j: nat | j < i :: !Harmful(run[j], acts[j].e)
    ensures Fine(run[i], q)
  {
    if i > 0 {
      hide State.Inv, Do, Can, Fine, Harmful;
      assert Linked(run, acts, i - 1);
      var s, p, e := run[i - 1], acts[i - 1].p, acts[i - 1].e;
      RunInv(run, acts, i - 1);
      StepNear(s, p, e, 0);
      StepNear(s, p, e, q);
      RunFine(run, acts, i - 1, q);
      StepFine(s, p, e, q);
    }
  }

  lemma StepNear(s: State, p: nat, e: Step, q: nat)
    requires s.Inv() && p < |s.pc| && Can(s, p, e)
    ensures |Do(s, p, e).pc| == |s.pc| && s.SaidOk() && s.ReaderOk(p) && (s.wend ==> s.writeopen)
    ensures q < |s.pc| ==> Near(s, p, e, q)
  {
    assert s.LockOk(p) && s.EndsOk(p) && (q < |s.pc| ==> s.LockOk(q));
  }

  /** After such a step a reader sleeps, the lock is free and the pipe is not empty. */
  lemma HarmDone(s: State, p: nat, e: Step)
    requires s.Inv() && p < |s.pc| && Can(s, p, e) && Harmful(s, e)
    ensures Do(s, p, e).lock == 0 && !ReadersFine(Do(s, p, e))
  {
    var q: nat :| q < |s.pc| && Asleep(s.pc[q], Readers);
    OtherPc(s, p, e, q);
  }

  /** In a run readers sleep, whenever the lock is free, only on an empty pipe whose write end is open, if and
      only if no writer gives up after putting bytes in while a reader sleeps. */
  lemma ReadersExact(run: seq<State>, acts: seq<Act>)
    requires IsRun(run, acts)
    ensures (forall i: nat | i < |run| && run[i].lock == 0 :: ReadersFine(run[i]))
       <==> (forall i: nat | i < |acts| :: !Harmful(run[i], acts[i].e))
  {
    hide Do, Can, Harmful, Init;
    if forall i: nat | i < |acts| :: !Harmful(run[i], acts[i].e) {
      forall i: nat | i < |run| && run[i].lock == 0 ensures ReadersFine(run[i]) {
        RunInv(run, acts, i);
        forall q: nat | q < |run[i].pc| && Asleep(run[i].pc[q], Readers) ensures run[i].b.Empty() && run[i].writeopen {
          RunFine(run, acts, i, q);
        }
      }
    } else {
      var i: nat :| i < |acts| && Harmful(run[i], acts[i].e);
      assert Linked(run, acts, i);
      RunInv(run, acts, i);
      HarmDone(run[i], acts[i].p, acts[i].e);
      assert run[i + 1].lock == 0;
    }
  }

  lemma Extend(run: seq<State>, acts: seq<Act>, p: nat, e: Step) returns (run': seq<State>, acts': seq<Act>)
    requires IsRun(run, acts) && |run| == |acts| + 1 && p < |run[|acts|].pc| && Can(run[|acts|], p, e)
    ensures |run[|acts|].b.data| == PIPESIZE
    ensures IsRun(run', acts') && |run'| == |acts'| + 1 && run'[|acts'|] == Do(run[|acts|], p, e)
    ensures acts' == acts + [Act(p, e)] && run' == run + [run'[|acts'|]]
  {
    RunInv(run, acts, |acts|);
    run', acts' := run + [Do(run[|acts|], p, e)], acts + [Act(p, e)];
    forall i: nat | i < |acts'| ensures Linked(run', acts', i) { if i < |acts| { assert Linked(run, acts, i); } }
  }

  /** Two processes at an empty pipe, of which the first is at `pc`. */
  ghost function AtEmpty(pc: Pc, lock: nat): State {
    State([pc, Out], lock, NewBuffer(), [], true, true, true, true, 0)
  }

  lemma DozingReader() returns (run: seq<State>, acts: seq<Act>)
    ensures IsRun(run, acts) && |run| == |acts| + 1 && run[|acts|] == AtEmpty(ReadDoze(1), 1)
  {
    hide IsRun, NewBuffer, Buffer.Put;
    NewTests();
    run, acts := FirstRun(AtEmpty(Out, 0));
    run, acts := Extend(run, acts, 0, CallRead(1));
    run, acts := Extend(run, acts, 0, Lock);
    assert run[|acts|].pc == [Reading(1), Out];
    run, acts := Extend(run, acts, 0, SleepEmpty);
    assert run[|acts|].pc == [ReadDoze(1), Out];
  }

  lemma SleepingReader() returns (run: seq<State>, acts: seq<Act>)
    ensures IsRun(run, acts) && |run| == |acts| + 1 && run[|acts|] == AtEmpty(ReadSleep(1), 0)
  {
    hide IsRun, NewBuffer, Buffer.Put;
    NewTests();
    run, acts := DozingReader();
    run, acts := Extend(run, acts, 0, Release);
    run, acts := Extend(run, acts, 0, Nap);
    assert run[|acts|].pc == [ReadSleep(1), Out];
  }

  /** The run in which it goes wrong: a reader sleeps, a writer puts one byte of two and is killed. */
  lemma KilledWriter() returns (run: seq<State>, acts: seq<Act>)
    ensures IsRun(run, acts) && |run| == |acts| + 1 && run[|acts|].lock == 0 && !ReadersFine(run[|acts|])
  {
    hide IsRun, NewBuffer, Buffer.Put, ReadersFine;
    NewTests();
    run, acts := SleepingReader();
    run, acts := Extend(run, acts, 1, CallWrite(2));
    run, acts := Extend(run, acts, 1, Lock);
    run, acts := Extend(run, acts, 1, PutByte(7));
    var s := run[|acts|];
    assert s.pc == [ReadSleep(1), Writing(1)] && Asleep(s.pc[0], Readers);
    RunInv(run, acts, |acts|);
    HarmDone(s, 1, Quit);
    run, acts := Extend(run, acts, 1, Quit);
  }

  lemma NewTests()
    ensures NewBuffer().Ok() && NewBuffer().Empty() && !NewBuffer().Full()
  {
  }

  lemma FirstRun(s: State) returns (run: seq<State>, acts: seq<Act>)
    requires Init(s)
    ensures IsRun(run, acts) && |run| == |acts| + 1 && run[|acts|] == s
  {
    run, acts := [s], [];
  }
}
