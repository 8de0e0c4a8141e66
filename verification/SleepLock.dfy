/** Sleep locks over sleep and wakeup (kernel/sleeplock.c, kernel/proc.c, kernel/spinlock.c) as
    interleaved steps of any number of processes.

    A step is what a process or the scheduler does between two points where another CPU can see a
    difference; spinlocks are taken by atomic steps (kernel/spinlock.c:21-82). */
module SleepLock {
  import opened Basics

  datatype ProcState = Running | Runnable | Sleeping

  /** Where a process is, with the source lines it is about to run. */
  datatype Pc =
    | Out                 // outside acquiresleep and releasesleep
    | AcqWait             // acquire(&lk->lk)                     sleeplock.c:24, proc.c:571
    | Test                // while (lk->locked)                   sleeplock.c:25-29
    | Leave               // release(&lk->lk)                     sleeplock.c:30
    | Crit                // holds the sleep lock
    | LockSelf            // sleep: acquire(&p->lock)             proc.c:557
    | DropLk              // release(lk)                          proc.c:558
    | GoSleep             // chan and state                       proc.c:561-562
    | InSched             // swtch, the scheduler's release       proc.c:564, 479
    | Parked              // off the CPU
    | Awake               // p->chan = 0                          proc.c:567
    | Unlock              // release(&p->lock)                    proc.c:570
    | RelWait             // releasesleep: acquire(&lk->lk)       sleeplock.c:36
    | Clear               // locked = 0, pid = 0                  sleeplock.c:37-38
    | Wake(k: nat)        // wakeup's loop at process k           proc.c:581-583
    | Waking(k: nat)      // with p[k]->lock held                 proc.c:584-587

  /** One sleep lock, its inner spinlock, and the processes with their own locks. */
  datatype State = State(
    pc: seq<Pc>, st: seq<ProcState>, onChan: seq<bool>,
    lk: Option<nat>,              // who holds the inner spinlock
    plock: seq<Option<nat>>,      // who holds each p->lock
    locked: bool, pid: Option<nat>)
  {
    ghost predicate Shape() { |pc| == |st| == |onChan| == |plock| }

    ghost predicate LkOk(p: nat)
      requires p < |pc|
    {
      HasLk(pc[p]) <==> lk == Some(p)
    }

    ghost predicate PlockOk(p: nat, q: nat)
      requires p < |pc| == |plock| && q < |pc|
    {
      plock[p] == Some(q) <==> if q == p then HasSelf(pc[p]) else pc[q] == Waking(p)
    }

    ghost predicate PlockIn(p: nat)
      requires p < |plock|
    {
      plock[p].Some? ==> plock[p].value < |pc|
    }

    ghost predicate StOk(p: nat)
      requires Shape() && p < |pc|
    {
      && (st[p] == Sleeping && onChan[p] ==> pc[p] == InSched || pc[p] == Parked)
      && (pc[p] == Parked ==> onChan[p] && st[p] != Running)
      && (pc[p] == InSched ==> onChan[p] && st[p] == Sleeping)
    }

    ghost predicate OwnerOk(p: nat)
      requires p < |pc|
    {
      Owns(pc[p]) <==> pid == Some(p)
    }

    /** A process that will sleep, or sleeps, finds the lock held or a wakeup still to come. */
    ghost predicate NoLost(p: nat)
      requires Shape() && p < |pc|
    {
      && (pc[p] == LockSelf || pc[p] == DropLk ==> locked)
      && (Committed(p) ==> locked || (lk.Some? && lk.value < |pc| && Sweeps(pc[lk.value], p)))
    }

    ghost predicate Committed(p: nat)
      requires Shape() && p < |pc|
    {
      pc[p] == GoSleep || pc[p] == InSched || (pc[p] == Parked && st[p] == Sleeping)
    }

    ghost predicate Inv() {
      && Shape() && (lk.Some? ==> lk.value < |pc|) && (pid.Some? ==> pid.value < |pc|) && (locked <==> pid.Some?)
      && (forall p: nat | p < |pc| :: LkOk(p) && StOk(p) && OwnerOk(p) && NoLost(p) && PlockIn(p))
      && (forall p: nat, q: nat | p < |pc| && q < |pc| :: PlockOk(p, q))
    }
  }

  predicate HasLk(pc: Pc) {
    pc.Test? || pc.Leave? || pc.LockSelf? || pc.DropLk? || pc.Clear? || pc.Wake? || pc.Waking?
  }

  predicate HasSelf(pc: Pc) { pc.DropLk? || pc.GoSleep? || pc.InSched? || pc.Awake? || pc.Unlock? }

  /** Between acquiresleep's and releasesleep's change of `locked`. */
  predicate Owns(pc: Pc) { pc.Leave? || pc.Crit? || pc.RelWait? || pc.Clear? }

  /** The wakeup loop has not passed process `p` yet. */
  predicate Sweeps(pc: Pc, p: nat) { (pc.Wake? && pc.k <= p) || (pc.Waking? && pc.k <= p) }

  datatype Step =
    | Call(p: nat)        // acquiresleep is called
    | Acquire(p: nat)     // the inner spinlock is taken
    | Try(p: nat)         // `locked` is looked at
    | Drop(p: nat)        // the inner spinlock is released
    | TakeSelf(p: nat)
    | Sleep(p: nat)       // chan and state are set
    | Park(p: nat)        // the scheduler releases p->lock
    | Dispatch(p: nat)    // the scheduler runs p again
    | Tidy(p: nat)
    | DropSelf(p: nat)
    | Return(p: nat)      // releasesleep is called
    | Unset(p: nat)
    | Sweep(p: nat)       // wakeup takes the next p->lock, or skips itself
    | WakeOne(p: nat)     // wakeup looks at that process and releases it
    | Finish(p: nat)      // releasesleep releases the inner spinlock
    | Kill(p: nat)        // some process kills p

  ghost predicate Enabled(s: State, e: Step)
    requires s.Shape()
  {
    && e.p < |s.pc|
    && match e
       case Call(p) => s.pc[p] == Out
       case Acquire(p) => (s.pc[p] == AcqWait || s.pc[p] == RelWait) && s.lk == None
       case Try(p) => s.pc[p] == Test
       case Drop(p) => s.pc[p] == Leave || s.pc[p] == DropLk
       case TakeSelf(p) => s.pc[p] == LockSelf && s.plock[p] == None
       case Sleep(p) => s.pc[p] == GoSleep
       case Park(p) => s.pc[p] == InSched
       case Dispatch(p) => s.pc[p] == Parked && s.st[p] == Runnable && s.plock[p] == None
       case Tidy(p) => s.pc[p] == Awake
       case DropSelf(p) => s.pc[p] == Unlock
       case Return(p) => s.pc[p] == Crit
       case Unset(p) => s.pc[p] == Clear
       case Sweep(p) => s.pc[p].Wake? && s.pc[p].k < |s.pc| && (s.pc[p].k == p || s.plock[s.pc[p].k] == None)
       case WakeOne(p) => s.pc[p].Waking? && s.pc[p].k < |s.pc|
       case Finish(p) => s.pc[p].Wake? && s.pc[p].k >= |s.pc|
       case Kill(p) => s.plock[p] == None
  }

  /** Where the process is after the step. */
  ghost function NewPc(s: State, e: Step): Pc
    requires s.Shape() && Enabled(s, e)
  {
    var pc := s.pc[e.p];
    match e
    case Call(_) => AcqWait
    case Acquire(_) => if pc == AcqWait then Test else Clear
    case Try(_) => if s.locked then LockSelf else Leave
    case Drop(_) => if pc == Leave then Crit else GoSleep
    case TakeSelf(_) => DropLk
    case Sleep(_) => InSched
    case Park(_) => Parked
    case Dispatch(_) => Awake
    case Tidy(_) => Unlock
    case DropSelf(_) => AcqWait
    case Return(_) => RelWait
    case Unset(_) => Wake(0)
    case Sweep(_) => if pc.k == e.p then Wake(pc.k + 1) else Waking(pc.k)
    case WakeOne(_) => Wake(pc.k + 1)
    case Finish(_) => Out
    case Kill(_) => pc
  }

  /** The process whose lock and state the step is about. */
  ghost function Whose(s: State, e: Step): (q: nat)
    requires s.Shape() && Enabled(s, e)
    ensures q < |s.pc|
  {
    if e.Sweep? || e.WakeOne? then s.pc[e.p].k else e.p
  }

  ghost function NewPlock(s: State, e: Step): Option<nat>
    requires s.Shape() && Enabled(s, e)
  {
    if e.TakeSelf? || e.Dispatch? || (e.Sweep? && s.pc[e.p].k != e.p) then Some(e.p)
    else if e.Park? || e.DropSelf? || e.WakeOne? then None
    else s.plock[Whose(s, e)]
  }

  ghost function NewSt(s: State, e: Step): ProcState
    requires s.Shape() && Enabled(s, e)
  {
    var q := Whose(s, e);
    if e.Sleep? then Sleeping
    else if e.Dispatch? then Running
    else if s.st[q] == Sleeping && (e.Kill? || (e.WakeOne? && s.onChan[q])) then Runnable
    else s.st[q]
  }

  ghost function Next(s: State, e: Step): State
    requires s.Shape() && Enabled(s, e)
  {
    var p, q := e.p, Whose(s, e);
    State(
      s.pc[p := NewPc(s, e)], s.st[q := NewSt(s, e)], s.onChan[p := e.Sleep? || (s.onChan[p] && !e.Tidy?)],
      if e.Acquire? then Some(p) else if e.Drop? || e.Finish? then None else s.lk,
      s.plock[q := NewPlock(s, e)],
      e.Try? || (s.locked && !e.Unset?),
      if e.Try? && !s.locked then Some(p) else if e.Unset? then None else s.pid)
  }

  /** What every step keeps. */
  lemma StepInv(s: State, e: Step)
    requires s.Inv() && Enabled(s, e)
    ensures Next(s, e).Inv()
  {
    hide Enabled, State.LkOk, State.PlockOk, State.StOk, State.OwnerOk, State.NoLost, State.PlockIn;
    var s', a := Next(s, e), e.p;
    EnabledIn(s, e);
    assert s.LkOk(a) && s.StOk(a) && s.OwnerOk(a) && s.PlockOk(a, a);
    StepHead(s, e);
    forall p: nat | p < |s'.pc| ensures s'.LkOk(p) { assert s.LkOk(p); StepLk(s, e, p); }
    forall p: nat | p < |s'.pc| ensures s'.PlockIn(p) { assert s.PlockIn(p); StepPlockIn(s, e, p); }
    forall p: nat | p < |s'.pc| ensures s'.OwnerOk(p) { assert s.OwnerOk(p); StepOwner(s, e, p); }
    forall p: nat | p < |s'.pc| ensures s'.StOk(p) {
      assert s.StOk(p) && s.PlockOk(p, p) && s.PlockOk(p, a);
      StepSt(s, e, p);
    }
    forall p: nat | p < |s'.pc| ensures s'.NoLost(p) {
      assert s.LkOk(p) && s.StOk(p) && s.NoLost(p) && s.PlockOk(p, p) && s.PlockOk(p, a);
      StepNoLost(s, e, p);
    }
    forall p: nat, q: nat | p < |s'.pc| && q < |s'.pc| ensures s'.PlockOk(p, q) {
      assert s.PlockOk(p, q) && s.PlockOk(p, p) && s.PlockOk(p, a) && s.LkOk(q);
      StepPlock(s, e, p, q);
    }
  }

  lemma EnabledIn(s: State, e: Step)
    requires s.Shape() && Enabled(s, e)
    ensures e.p < |s.pc| && Next(s, e).Shape() && |Next(s, e).pc| == |s.pc|
  {
  }

  lemma StepHead(s: State, e: Step)
    requires s.Shape() && Enabled(s, e) && s.OwnerOk(e.p) && s.LkOk(e.p) && (s.locked <==> s.pid.Some?)
    requires (s.lk.Some? ==> s.lk.value < |s.pc|) && (s.pid.Some? ==> s.pid.value < |s.pc|)
    ensures var s' := Next(s, e);
            && (s'.lk.Some? ==> s'.lk.value < |s'.pc|) && (s'.pid.Some? ==> s'.pid.value < |s'.pc|)
            && (s'.locked <==> s'.pid.Some?)
  {
  }

  lemma StepLk(s: State, e: Step, p: nat)
    requires s.Shape() && Enabled(s, e) && p < |s.pc| && s.LkOk(p) && s.LkOk(e.p)
    ensures |Next(s, e).pc| == |s.pc| && Next(s, e).LkOk(p)
  {
  }

  lemma StepPlockIn(s: State, e: Step, p: nat)
    requires s.Shape() && Enabled(s, e) && p < |s.pc| && s.PlockIn(p)
    ensures |Next(s, e).plock| == |s.pc| && Next(s, e).PlockIn(p)
  {
  }

  lemma StepOwner(s: State, e: Step, p: nat)
    requires s.Shape() && Enabled(s, e) && p < |s.pc| && s.OwnerOk(p) && s.OwnerOk(e.p)
    requires s.locked <==> s.pid.Some?
    ensures |Next(s, e).pc| == |s.pc| && Next(s, e).OwnerOk(p)
  {
  }

  lemma StepSt(s: State, e: Step, p: nat)
    requires s.Shape() && Enabled(s, e) && p < |s.pc| && s.StOk(p) && s.StOk(e.p)
    requires s.PlockOk(p, p) && s.PlockOk(p, e.p)
    ensures Next(s, e).Shape() && |Next(s, e).pc| == |s.pc| && Next(s, e).StOk(p)
  {
  }

  /** sleep holds p->lock from before it releases the lock on the condition until it is off the CPU, so
      the sweep of a later releasesleep cannot pass it by. */
  lemma StepNoLost(s: State, e: Step, p: nat)
    requires s.Shape() && Enabled(s, e) && p < |s.pc| && s.LkOk(p) && s.StOk(p) && s.NoLost(p) && s.LkOk(e.p)
    requires s.PlockOk(p, p) && s.PlockOk(p, e.p) && (s.lk.Some? ==> s.lk.value < |s.pc|)
    ensures Next(s, e).Shape() && |Next(s, e).pc| == |s.pc| && Next(s, e).NoLost(p)
  {
  }

  lemma StepPlock(s: State, e: Step, p: nat, q: nat)
    requires s.Shape() && Enabled(s, e) && p < |s.pc| && q < |s.pc| && s.PlockOk(p, q) && s.PlockOk(p, p)
    requires s.PlockOk(p, e.p) && s.LkOk(q) && s.LkOk(e.p)
    ensures |Next(s, e).pc| == |Next(s, e).plock| == |s.pc| && Next(s, e).PlockOk(p, q)
  {
  }

  /** All processes outside, the lock free. */
  ghost predicate Init(s: State) {
    && s.Shape() && s.lk == None && !s.locked && s.pid == None
    && forall p: nat | p < |s.pc| :: s.pc[p] == Out && s.plock[p] == None && !s.onChan[p]
  }

  ghost predicate StepTo(s: State, s': State) {
    s.Shape() && exists e: Step :: Enabled(s, e) && Next(s, e) == s'
  }

  ghost predicate Linked(run: seq<State>, i: nat)
    requires i + 1 < |run|
  {
    StepTo(run[i], run[i + 1])
  }

  /** A run of any length, of any number of processes, in any interleaving. */
  ghost predicate IsRun(run: seq<State>) {
    run != [] && Init(run[0]) && forall i: nat | i + 1 < |run| :: Linked(run, i)
  }

  lemma InitInv(s: State)
    requires Init(s)
    ensures s.Inv()
  {
    forall p: nat | p < |s.pc| ensures s.LkOk(p) && s.StOk(p) && s.OwnerOk(p) && s.NoLost(p) && s.PlockIn(p) {
      assert s.pc[p] == Out;
    }
    forall p: nat, q: nat | p < |s.pc| && q < |s.pc| ensures s.PlockOk(p, q) {
      assert s.pc[p] == Out && s.pc[q] == Out;
    }
  }

  lemma {:induction false} RunInv(run: seq<State>, i: nat)
    requires IsRun(run) && i < |run|
    ensures run[i].Inv()
  {
    hide State.Inv, Next, Enabled, Init;
    if i == 0 {
      InitInv(run[0]);
    } else {
      RunInv(run, i - 1);
      assert Linked(run, i - 1);
      var e: Step :| Enabled(run[i - 1], e) && Next(run[i - 1], e) == run[i];
      StepInv(run[i - 1], e);
    }
  }

  /** In every run at most one process is between acquiresleep and releasesleep, and `pid` names it. */
  lemma MutualExclusion(run: seq<State>, i: nat, p: nat, q: nat)
    requires IsRun(run) && i < |run| && p < |run[i].pc| && q < |run[i].pc| && Owns(run[i].pc[p]) && Owns(run[i].pc[q])
    ensures p == q && run[i].locked && run[i].pid == Some(p)
  {
    RunInv(run, i);
    assert run[i].OwnerOk(p) && run[i].OwnerOk(q);
  }

  /** In every run, when the inner spinlock is free and the lock is not held, nobody sleeps on it. */
  lemma NoLostWakeup(run: seq<State>, i: nat, p: nat)
    requires IsRun(run) && i < |run| && p < |run[i].pc| && run[i].lk == None && !run[i].locked
    ensures run[i].Shape() && !(run[i].st[p] == Sleeping && run[i].onChan[p])
  {
    RunInv(run, i);
    assert run[i].NoLost(p) && run[i].StOk(p);
  }

  /** In every run `locked` is set exactly while some process is between the two changes. */
  lemma LockedIsOwned(run: seq<State>, i: nat)
    requires IsRun(run) && i < |run|
    ensures run[i].locked <==> exists p: nat :: p < |run[i].pc| && Owns(run[i].pc[p])
  {
    RunInv(run, i);
    if run[i].locked { assert run[i].OwnerOk(run[i].pid.value); }
    forall p: nat | p < |run[i].pc| && Owns(run[i].pc[p]) ensures run[i].locked { assert run[i].OwnerOk(p); }
  }
}
