/** fork, exit, wait, yield and the scheduler (kernel/proc.c) as interleaved steps of any number of
    processes and CPUs.

    A step runs up to the next operation on a lock that other CPUs compete for. Process 0 is
    initproc. Sleeping on channels other than wait's own is a nap that may end at any time. */
module ExitWait {
  import opened Basics

  datatype ProcState = Unused | Used | Sleeping | Runnable | Running | Zombie

  /** Where wakeup goes on in exit. */
  datatype Ret = ToRep(k: nat) | ToLock

  datatype Pc =
    | Start                               // forkret, with p->lock held        proc.c:525-530
    | User                                // anywhere else
    | FCopy(k: nat)                       // fork, child's lock held           proc.c:297-325
    | FParent(k: nat)                     // acquire(&wait_lock)               proc.c:327
    | FSet(k: nat)                        // parent, release(&wait_lock)       proc.c:328-329
    | FLock(k: nat)                       // acquire(&np->lock)                proc.c:331
    | FRun(k: nat)                        // RUNNABLE, release                 proc.c:332-333
    | ERep(k: nat)                        // reparent at process k             proc.c:345-347
    | Wake(t: Option<nat>, k: nat, ret: Ret)     // wakeup(t) at process k     proc.c:581-583
    | Waking(t: Option<nat>, k: nat, ret: Ret)   // with its lock held         proc.c:584-587
    | ELock                               // acquire(&p->lock)                 proc.c:386
    | EZomb                               // ZOMBIE, release(&wait_lock)       proc.c:388-391
    | EDead                               // sched                             proc.c:394
    | EGone                               // off the CPU for good
    | Scan(k: nat, kids: bool)            // wait at process k                 proc.c:412-415
    | Look(k: nat, kids: bool)            // with its lock held                proc.c:417-432
    | WDone                               // release(&wait_lock)               proc.c:429
    | WSleep                              // sleep: acquire(&p->lock)          proc.c:557
    | WDrop                               // release(&wait_lock)               proc.c:558
    | WGo                                 // chan and state                    proc.c:561-562
    | WSched                              // sched                             proc.c:564
    | WResume                             // chan, release(&p->lock)           proc.c:567-570
    | WAgain                              // acquire(&wait_lock)               proc.c:571
    | YSet                                // yield or a nap, p->lock held      proc.c:517
    | YSched                              // sched                             proc.c:518
    | YResume                             // release(&p->lock)                 proc.c:519

  /** A CPU's scheduler: between processes, with a p->lock just taken, running it, back from it. */
  datatype Cpu = Idle | Got(k: nat) | Ran(k: nat) | Back(k: nat)

  datatype Holder = Proc(p: nat) | Sched(c: nat)

  datatype Process = Process(
    pc: Pc, st: ProcState, parent: Option<nat>,
    inWait: bool,                       // chan is the process itself
    plock: Option<Holder>,
    at: Option<nat>,                    // the CPU on this process's kernel stack
    maker: Option<nat>,                 // whose fork is filling this slot
    xstate: int,                        // the exit status, for wait
    val: int)                           // what exit was called with, or what wait copied out

  /** What one step of process `p` leaves behind: its own record, that of process `k`, and wait_lock. */
  datatype Change = Change(me: Process, k: nat, it: Process, waitLock: Option<nat>)

  datatype State = State(pr: seq<Process>, waitLock: Option<nat>, cpu: seq<Cpu>)
  {
    ghost predicate Shape() { |pr| > 0 }

    ghost function Apply(p: nat, c: Change): State
      requires p < |pr| && c.k < |pr|
    {
      State(pr[c.k := c.it][p := c.me], c.waitLock, cpu)
    }

    ghost function Own(p: nat, me: Process): (c: Change)
      requires p < |pr|
    {
      Change(me, p, me, waitLock)
    }

    ghost function Set(p: nat, r: Process): State
      requires p < |pr|
    {
      this.(pr := pr[p := r])
    }

    /** wait_lock is held by whoever is between acquire and release. */
    ghost predicate WaitOk(p: nat)
      requires p < |pr|
    {
      HasWait(pr[p].pc) <==> waitLock == Some(p)
    }

    /** Who holds which p->lock. */
    ghost predicate PlockOk(k: nat, p: nat)
      requires Shape() && k < |pr| && p < |pr|
    {
      pr[k].plock == Some(Proc(p)) <==> HasPlock(pr[p].pc, pr[p].at.Some?, k, p)
    }

    ghost predicate SchedOk(k: nat, c: nat)
      requires Shape() && k < |pr| && c < |cpu|
    {
      pr[k].plock == Some(Sched(c)) <==> cpu[c] == Got(k) || cpu[c] == Back(k)
    }

    /** A kernel stack is used by at most one CPU, which has the process as current. */
    ghost predicate AtOk(p: nat, c: nat)
      requires Shape() && p < |pr| && c < |cpu|
    {
      pr[p].at == Some(c) <==> cpu[c] == Ran(p)
    }

    ghost predicate StOk(p: nat)
      requires Shape() && p < |pr|
    {
      (p == 0 ==> Alive(pr[p].st)) && Fits(pr[p], |cpu|)
    }

    /** Nobody's parent is a zombie or an unused slot. */
    ghost predicate ParentOk(k: nat)
      requires Shape() && k < |pr|
    {
      pr[k].parent.Some? ==>
        var q := pr[k].parent.value; k != 0 && q < |pr| && q != k && Alive(pr[q].st)
    }

    /** The slot that fork is filling. */
    ghost predicate MakerOk(k: nat, p: nat)
      requires Shape() && k < |pr| && p < |pr|
    {
      pr[k].maker == Some(p) <==> Makes(pr[p].pc, k)
    }

    ghost predicate UsedOk(k: nat)
      requires Shape() && k < |pr|
    {
      && (pr[k].maker.Some? <==> pr[k].st == Used)
      && (pr[k].maker.Some? ==> pr[k].maker.value < |pr| && pr[k].maker.value != k)
    }

    /** An exiting process has given its first children to init. */
    ghost predicate SweptOk(q: nat, j: nat)
      requires Shape() && q < |pr| && j < |pr|
    {
      j < Swept(pr[q].pc, |pr|) ==> pr[j].parent != Some(q)
    }

    ghost predicate Inv() {
      && Shape() && (waitLock.Some? ==> waitLock.value < |pr|)
      && (forall p: nat | p < |pr| :: WaitOk(p))
      && (forall p: nat | p < |pr| :: StOk(p))
      && (forall p: nat | p < |pr| :: ParentOk(p))
      && (forall p: nat | p < |pr| :: UsedOk(p))
      && (forall p: nat | p < |pr| :: WokeOk(p))
      && (forall p: nat | p < |pr| :: ExitOk(p))
      && (forall k: nat, p: nat | k < |pr| && p < |pr| :: PlockOk(k, p))
      && (forall k: nat, p: nat | k < |pr| && p < |pr| :: MakerOk(k, p))
      && (forall p: nat, j: nat | p < |pr| && j < |pr| :: SweptOk(p, j))
      && (forall p: nat, j: nat | p < |pr| && j < |pr| :: ScanOk(p, j))
      && (forall p: nat, j: nat | p < |pr| && j < |pr| :: NoLost(p, j))
      && (forall p: nat, c: nat | p < |pr| && c < |cpu| :: AtOk(p, c))
      && (forall p: nat, c: nat | p < |pr| && c < |cpu| :: SchedOk(p, c))
    }

    /** init does not exit, and the other process a step is about is another one. */
    ghost predicate ExitOk(p: nat)
      requires p < |pr|
    {
      && (Exiting(pr[p].pc) ==> p != 0)
      && (pr[p].pc.Waking? || pr[p].pc.Look? || Making(pr[p].pc) ==> pr[p].pc.k < |pr| && pr[p].pc.k != p)
    }

    /** A process scanning its children has seen no zombie so far. */
    ghost predicate ScanOk(p: nat, j: nat)
      requires Shape() && p < |pr| && j < |pr|
    {
      j < Scanned(pr[p].pc, |pr|) && pr[j].parent == Some(p) ==> pr[j].st != Zombie
    }

    /** It sleeps, or will sleep, in wait. */
    ghost predicate Committed(p: nat)
      requires Shape() && p < |pr|
    {
      pr[p].pc == WGo || pr[p].pc == WSched || (pr[p].pc == WResume && pr[p].at.None? && pr[p].st == Sleeping)
    }

    /** If it has a zombie child, a wakeup for it is still to come. */
    ghost predicate NoLost(p: nat, j: nat)
      requires Shape() && p < |pr| && j < |pr|
    {
      Committed(p) && pr[j].parent == Some(p) && pr[j].st == Zombie
      ==> (waitLock.Some? && waitLock.value < |pr| && Sweeps(pr[waitLock.value].pc, p))
    }

    /** An exiting process wakes its parent before it becomes a zombie. */
    ghost predicate WokeOk(e: nat)
      requires Shape() && e < |pr|
    {
      && ((pr[e].pc.Wake? || pr[e].pc.Waking?) && pr[e].pc.ret == ToLock ==> pr[e].pc.t == pr[e].parent)
      && (pr[e].parent.Some? && pr[e].parent.value < |pr| && Woke(pr[e].pc, pr[e].parent.value) ==>
          !Committed(pr[e].parent.value))
    }
  }

  predicate HasWait(pc: Pc) {
    pc.FSet? || pc.ERep? || pc.Wake? || pc.Waking? || pc.ELock? || pc.EZomb? || pc.Scan? || pc.Look? || pc.WDone?
        || pc.WSleep? || pc.WDrop?
  }

  /** Process `p` at `pc` holds the lock of process `k`. */
  predicate HasPlock(pc: Pc, on: bool, k: nat, p: nat) {
    || ((pc.FCopy? || pc.FRun? || pc.Look? || pc.Waking?) && pc.k == k)
    || (k == p && (pc.EZomb? || pc.EDead? || pc.WDrop? || pc.WGo? || pc.WSched? || pc.YSet? || pc.YSched?
                   || (on && (pc.Start? || pc.WResume? || pc.YResume?))))
  }

  predicate Sweeps(pc: Pc, p: nat) { (pc.Wake? || pc.Waking?) && pc.t == Some(p) && pc.k <= p }

  predicate Woke(pc: Pc, x: nat) {
    pc.ELock? || pc.EZomb? || ((pc.Wake? || pc.Waking?) && pc.ret == ToLock && pc.k > x)
  }

  function Swept(pc: Pc, n: nat): nat {
    match pc
    case ERep(k) => k
    case Wake(_, _, ret) => if ret.ToRep? then ret.k else n
    case Waking(_, _, ret) => if ret.ToRep? then ret.k else n
    case ELock => n
    case EZomb => n
    case _ => 0
  }

  function Scanned(pc: Pc, n: nat): nat {
    match pc
    case Scan(k, _) => k
    case Look(k, _) => k
    case WSleep => n
    case WDrop => n
    case _ => 0
  }

  /** State, place and CPU of a process agree. */
  ghost predicate Fits(r: Process, cpus: nat) {
    && (r.at.Some? ==> r.at.value < cpus && !r.pc.EGone? && OnCpu(r.pc, r.st))
    && (r.at.None? ==> r.st != Running && (r.pc == Start || r.pc == WResume || r.pc == YResume || r.pc == EGone))
    && (r.st == Unused ==> r.pc == Start || r.pc == EGone)
    && (r.st == Used ==> r.at.None? && r.pc == Start)
    && (r.st == Zombie ==> r.pc == EDead || r.pc == EGone)
    && (r.pc == EGone ==> r.st == Zombie || r.st == Unused)
    && (r.inWait <==> r.pc == WSched || r.pc == WResume)
  }

  predicate Exiting(pc: Pc) { pc.ERep? || pc.Wake? || pc.Waking? || pc.ELock? || pc.EZomb? || pc.EDead? || pc.EGone? }

  predicate Alive(st: ProcState) { st != Zombie && st != Unused && st != Used }

  /** The state of a process on a CPU: RUNNING but between its last change of state and swtch. */
  predicate OnCpu(pc: Pc, st: ProcState) {
    if pc == EDead then st == Zombie
    else if pc == WSched then st == Sleeping
    else if pc == YSched then st == Runnable || st == Sleeping
    else st == Running
  }

  predicate Making(pc: Pc) { pc.FCopy? || pc.FParent? || pc.FSet? || pc.FLock? || pc.FRun? }

  predicate Makes(pc: Pc, k: nat) { Making(pc) && pc.k == k }

  /** The steps of fork, and of a child's first run. */
  datatype ForkStep = Begin | Alloc(k: nat) | Fail | Go | WaitLock | SetParent | ChildLock | ChildRun

  ghost predicate CanFork(s: State, p: nat, e: ForkStep)
    requires s.Shape() && p < |s.pr|
  {
    var pc, n := s.pr[p].pc, |s.pr|;
    match e
    case Begin => pc == Start
    case Alloc(k) => pc == User && k < n && s.pr[k].st == Unused && s.pr[k].plock == None
    case Fail => pc.FCopy? && pc.k < n
    case Go => pc.FCopy? && pc.k < n
    case WaitLock => pc.FParent? && s.waitLock == None
    case SetParent => pc.FSet? && pc.k < n
    case ChildLock => pc.FLock? && pc.k < n && s.pr[pc.k].plock == None
    case ChildRun => pc.FRun? && pc.k < n
  }

  ghost function ForkChange(s: State, p: nat, e: ForkStep): (c: Change)
    requires s.Shape() && p < |s.pr| && CanFork(s, p, e)
    ensures c.k < |s.pr|
  {
    var me := s.pr[p];
    var pc := me.pc;
    match e
    case Begin => s.Own(p, me.(pc := User, plock := None))
    case Alloc(k) =>
      var it := s.pr[k].(pc := Start, st := Used, plock := Some(Proc(p)), maker := Some(p));
      Change(me.(pc := FCopy(k)), k, it, s.waitLock)
    case Fail =>
      var it := s.pr[pc.k].(st := Unused, parent := None, plock := None, maker := None, xstate := 0);
      Change(me.(pc := User), pc.k, it, s.waitLock)
    case Go => Change(me.(pc := FParent(pc.k)), pc.k, s.pr[pc.k].(plock := None), s.waitLock)
    case WaitLock => s.Own(p, me.(pc := FSet(pc.k))).(waitLock := Some(p))
    case SetParent => Change(me.(pc := FLock(pc.k)), pc.k, s.pr[pc.k].(parent := Some(p)), None)
    case ChildLock => Change(me.(pc := FRun(pc.k)), pc.k, s.pr[pc.k].(plock := Some(Proc(p))), s.waitLock)
    case ChildRun =>
      Change(me.(pc := User), pc.k, s.pr[pc.k].(st := Runnable, plock := None, maker := None), s.waitLock)
  }

  ghost function DoFork(s: State, p: nat, e: ForkStep): State
    requires s.Shape() && p < |s.pr| && CanFork(s, p, e)
  {
    s.Apply(p, ForkChange(s, p, e))
  }

  /** The steps of exit, with reparent and wakeup. */
  datatype ExitStep = Enter(status: int) | Rep | Sweep | WakeOne | SelfLock | Die

  ghost predicate CanExit(s: State, p: nat, e: ExitStep)
    requires s.Shape() && p < |s.pr|
  {
    var pc, n := s.pr[p].pc, |s.pr|;
    match e
    case Enter(_) => pc == User && p != 0 && s.waitLock == None
    case Rep => pc.ERep?
    case Sweep => pc.Wake? && (pc.k < n && pc.k != p ==> s.pr[pc.k].plock == None)
    case WakeOne => pc.Waking? && pc.k < n
    case SelfLock => pc == ELock && s.pr[p].plock == None
    case Die => pc == EZomb
  }

  ghost function ExitChange(s: State, p: nat, e: ExitStep): (c: Change)
    requires s.Shape() && p < |s.pr| && CanExit(s, p, e)
    ensures c.k < |s.pr|
  {
    var me, n := s.pr[p], |s.pr|;
    var pc := me.pc;
    match e
    case Enter(status) => s.Own(p, me.(pc := ERep(0), val := status)).(waitLock := Some(p))
    case Rep =>
      if pc.k >= n then s.Own(p, me.(pc := Wake(me.parent, 0, ToLock)))
      else if s.pr[pc.k].parent == Some(p) then
        Change(me.(pc := Wake(Some(0), 0, ToRep(pc.k + 1))), pc.k, s.pr[pc.k].(parent := Some(0)), s.waitLock)
      else s.Own(p, me.(pc := ERep(pc.k + 1)))
    case Sweep =>
      if pc.k >= n then s.Own(p, me.(pc := if pc.ret.ToRep? then ERep(pc.ret.k) else ELock))
      else if pc.k == p then s.Own(p, me.(pc := Wake(pc.t, pc.k + 1, pc.ret)))
      else Change(me.(pc := Waking(pc.t, pc.k, pc.ret)), pc.k, s.pr[pc.k].(plock := Some(Proc(p))), s.waitLock)
    case WakeOne =>
      var it := s.pr[pc.k];
      var st := if it.st == Sleeping && it.inWait && pc.t == Some(pc.k) then Runnable else it.st;
      Change(me.(pc := Wake(pc.t, pc.k + 1, pc.ret)), pc.k, it.(plock := None, st := st), s.waitLock)
    case SelfLock => s.Own(p, me.(pc := EZomb, plock := Some(Proc(p))))
    case Die => s.Own(p, me.(pc := EDead, st := Zombie, xstate := me.val)).(waitLock := None)
  }

  ghost function DoExit(s: State, p: nat, e: ExitStep): State
    requires s.Shape() && p < |s.pr| && CanExit(s, p, e)
  {
    s.Apply(p, ExitChange(s, p, e))
  }

  /** The steps of wait, with sleep. `NoCopy` is a failed copyout. */
  datatype WaitStep =
    Call | ScanOne | Reap | NoCopy | Skip | End | GiveUp | More | SelfLock_ | Drop | Sleep | Resume | Again

  ghost predicate CanWait(s: State, p: nat, e: WaitStep)
    requires s.Shape() && p < |s.pr|
  {
    var pc, n := s.pr[p].pc, |s.pr|;
    match e
    case Call => pc == User && s.waitLock == None
    case ScanOne => pc.Scan? && pc.k < n && (s.pr[pc.k].parent == Some(p) ==> s.pr[pc.k].plock == None)
    case Reap => pc.Look? && pc.k < n && s.pr[pc.k].st == Zombie
    case NoCopy => pc.Look? && pc.k < n && s.pr[pc.k].st == Zombie
    case Skip => pc.Look? && pc.k < n && s.pr[pc.k].st != Zombie
    case End => pc == WDone
    case GiveUp => pc.Scan? && pc.k >= n
    case More => pc.Scan? && pc.k >= n && pc.kids
    case SelfLock_ => pc == WSleep && s.pr[p].plock == None
    case Drop => pc == WDrop
    case Sleep => pc == WGo
    case Resume => pc == WResume
    case Again => pc == WAgain && s.waitLock == None
  }

  ghost function WaitChange(s: State, p: nat, e: WaitStep): (c: Change)
    requires s.Shape() && p < |s.pr| && CanWait(s, p, e)
    ensures c.k < |s.pr|
  {
    var me := s.pr[p];
    var pc := me.pc;
    match e
    case Call => s.Own(p, me.(pc := Scan(0, false))).(waitLock := Some(p))
    case ScanOne =>
      if s.pr[pc.k].parent == Some(p) then
        Change(me.(pc := Look(pc.k, pc.kids)), pc.k, s.pr[pc.k].(plock := Some(Proc(p))), s.waitLock)
      else s.Own(p, me.(pc := Scan(pc.k + 1, pc.kids)))
    case Reap =>
      var it := s.pr[pc.k].(st := Unused, parent := None, inWait := false, plock := None, xstate := 0);
      Change(me.(pc := WDone, val := s.pr[pc.k].xstate), pc.k, it, s.waitLock)
    case NoCopy => Change(me.(pc := WDone), pc.k, s.pr[pc.k].(plock := None), s.waitLock)
    case Skip => Change(me.(pc := Scan(pc.k + 1, true)), pc.k, s.pr[pc.k].(plock := None), s.waitLock)
    case End => s.Own(p, me.(pc := User)).(waitLock := None)
    case GiveUp => s.Own(p, me.(pc := User)).(waitLock := None)
    case More => s.Own(p, me.(pc := WSleep))
    case SelfLock_ => s.Own(p, me.(pc := WDrop, plock := Some(Proc(p))))
    case Drop => s.Own(p, me.(pc := WGo)).(waitLock := None)
    case Sleep => s.Own(p, me.(pc := WSched, inWait := true, st := Sleeping))
    case Resume => s.Own(p, me.(pc := WAgain, inWait := false, plock := None))
    case Again => s.Own(p, me.(pc := Scan(0, false))).(waitLock := Some(p))
  }

  ghost function DoWait(s: State, p: nat, e: WaitStep): State
    requires s.Shape() && p < |s.pr| && CanWait(s, p, e)
  {
    s.Apply(p, WaitChange(s, p, e))
  }

  /** The steps of yield, or of a nap, and swtch to the scheduler. */
  datatype YieldStep = Yield | YieldSet(nap: bool) | Switch | YieldEnd

  ghost predicate CanYield(s: State, p: nat, e: YieldStep)
    requires s.Shape() && p < |s.pr|
  {
    var pc := s.pr[p].pc;
    match e
    case Yield => pc == User && s.pr[p].plock == None
    case YieldSet(_) => pc == YSet
    case Switch => (pc == EDead || pc == WSched || pc == YSched) && s.pr[p].at.Some? && s.pr[p].at.value < |s.cpu|
    case YieldEnd => pc == YResume
  }

  ghost function Yielded(s: State, p: nat, e: YieldStep): Process
    requires s.Shape() && p < |s.pr| && CanYield(s, p, e)
  {
    var me := s.pr[p];
    match e
    case Yield => me.(pc := YSet, plock := Some(Proc(p)))
    case YieldSet(nap) => me.(pc := YSched, st := if nap then Sleeping else Runnable)
    case Switch =>
      var next := if me.pc == EDead then EGone else if me.pc == WSched then WResume else YResume;
      me.(pc := next, at := None, plock := Some(Sched(me.at.value)))
    case YieldEnd => me.(pc := User, plock := None)
  }

  ghost function DoYield(s: State, p: nat, e: YieldStep): State
    requires s.Shape() && p < |s.pr| && CanYield(s, p, e)
  {
    State(s.pr[p := Yielded(s, p, e)], s.waitLock, if e.Switch? then s.cpu[s.pr[p].at.value := Back(p)] else s.cpu)
  }

  /** The steps of a CPU's scheduler with process `k` (kernel/proc.c:466-479): it takes the lock, runs the
      process or not, and releases the lock when the process is back. `Rouse` is kill, or a wakeup
      that ends a nap (kernel/proc.c:601-608). */
  datatype SchedStep = Pick | Run | Pass | Free | Rouse

  ghost predicate CanSched(s: State, c: nat, k: nat, e: SchedStep)
    requires s.Shape() && c < |s.cpu| && k < |s.pr|
  {
    match e
    case Pick => s.cpu[c] == Idle && s.pr[k].plock == None
    case Run => s.cpu[c] == Got(k) && s.pr[k].st == Runnable
    case Pass => s.cpu[c] == Got(k) && s.pr[k].st != Runnable
    case Free => s.cpu[c] == Back(k)
    case Rouse => s.pr[k].plock == None
  }

  ghost function DoSched(s: State, c: nat, k: nat, e: SchedStep): State
    requires s.Shape() && c < |s.cpu| && k < |s.pr| && CanSched(s, c, k, e)
  {
    var it := s.pr[k];
    match e
    case Pick => s.Set(k, it.(plock := Some(Sched(c)))).(cpu := s.cpu[c := Got(k)])
    case Run => s.Set(k, it.(st := Running, at := Some(c), plock := Some(Proc(k)))).(cpu := s.cpu[c := Ran(k)])
    case Pass => s.Set(k, it.(plock := None)).(cpu := s.cpu[c := Idle])
    case Free => s.Set(k, it.(plock := None)).(cpu := s.cpu[c := Idle])
    case Rouse => if it.st == Sleeping then s.Set(k, it.(st := Runnable)) else s
  }

  /** A CPU is on the process's kernel stack. */
  ghost predicate Runs(s: State, p: nat) { p < |s.pr| && s.pr[p].at.Some? }

  /** A process's code runs only then. */
  ghost predicate StepTo(s: State, s': State) {
    && s.Shape()
    && (|| (exists p: nat, e: ForkStep :: Runs(s, p) && CanFork(s, p, e) && s' == DoFork(s, p, e))
        || (exists p: nat, e: ExitStep :: Runs(s, p) && CanExit(s, p, e) && s' == DoExit(s, p, e))
        || (exists p: nat, e: WaitStep :: Runs(s, p) && CanWait(s, p, e) && s' == DoWait(s, p, e))
        || (exists p: nat, e: YieldStep :: Runs(s, p) && CanYield(s, p, e) && s' == DoYield(s, p, e))
        || (exists c: nat, k: nat, e: SchedStep ::
            c < |s.cpu| && k < |s.pr| && CanSched(s, c, k, e) && s' == DoSched(s, c, k, e)))
  }

  lemma ForkWaitOk(s: State, p: nat, e: ForkStep, x: nat)
    requires s.Shape() && p < |s.pr| && s.pr[p].at.Some? && CanFork(s, p, e) && x < |s.pr|
    requires s.WaitOk(x) && s.ExitOk(x) && s.WaitOk(p) && s.StOk(x) && s.ExitOk(p) && s.StOk(p)
    ensures var s' := DoFork(s, p, e); s'.Shape() && s'.WaitOk(x) && s'.ExitOk(x)
  {
    hide HasPlock, Sweeps, Woke, Swept, Scanned, Makes, OnCpu, Alive, State.Committed;
  }

  lemma ForkStOk(s: State, p: nat, e: ForkStep, x: nat)
    requires s.Shape() && p < |s.pr| && s.pr[p].at.Some? && CanFork(s, p, e) && x < |s.pr|
    requires s.StOk(x) && s.StOk(p) && s.UsedOk(x) && s.MakerOk(x, p) && s.ExitOk(p)
    ensures var s' := DoFork(s, p, e); s'.Shape() && s'.StOk(x)
  {
    hide HasWait, HasPlock, Sweeps, Woke, Swept, Scanned, Exiting, State.Committed;
  }

  lemma ForkParentOk(s: State, p: nat, e: ForkStep, x: nat)
    requires s.Shape() && p < |s.pr| && s.pr[p].at.Some? && CanFork(s, p, e) && x < |s.pr|
    requires s.ParentOk(x) && s.StOk(p) && s.UsedOk(x) && s.MakerOk(x, p) && s.ExitOk(p)
    requires Making(s.pr[p].pc) && s.pr[p].pc.k < |s.pr| ==> s.UsedOk(s.pr[p].pc.k) && s.MakerOk(s.pr[p].pc.k, p)
    requires Making(s.pr[p].pc) && s.pr[p].pc.k < |s.pr| ==> s.StOk(s.pr[p].pc.k)
    ensures var s' := DoFork(s, p, e); s'.Shape() && s'.ParentOk(x)
  {
    hide HasWait, HasPlock, Sweeps, Woke, Swept, Scanned, Exiting, State.Committed;
  }

  lemma ForkUsedOk(s: State, p: nat, e: ForkStep, x: nat)
    requires s.Shape() && p < |s.pr| && s.pr[p].at.Some? && CanFork(s, p, e) && x < |s.pr|
    requires s.UsedOk(x) && s.StOk(p) && s.UsedOk(p) && s.MakerOk(x, p) && s.StOk(x) && s.ExitOk(p)
    ensures var s' := DoFork(s, p, e); s'.Shape() && s'.UsedOk(x)
  {
    hide HasWait, HasPlock, Sweeps, Woke, Swept, Scanned, Exiting, OnCpu, Alive, State.Committed;
  }

  lemma ForkWokeOk(s: State, p: nat, e: ForkStep, x: nat)
    requires s.Shape() && p < |s.pr| && s.pr[p].at.Some? && CanFork(s, p, e) && x < |s.pr|
    requires s.WokeOk(x) && s.ParentOk(x) && s.StOk(p) && s.StOk(x) && s.MakerOk(x, p) && s.UsedOk(x) && s.WaitOk(x)
    requires s.WaitOk(p) && s.ExitOk(p)
    requires s.pr[x].parent.Some? ==> s.StOk(s.pr[x].parent.value) && s.UsedOk(s.pr[x].parent.value)
    requires s.pr[x].parent.Some? ==> s.MakerOk(s.pr[x].parent.value, p)
    ensures var s' := DoFork(s, p, e); s'.Shape() && s'.WokeOk(x)
  {
    hide HasPlock, Sweeps, Swept, Scanned, Exiting;
  }

  lemma ForkPlockOk(s: State, p: nat, e: ForkStep, x: nat, y: nat)
    requires s.Shape() && p < |s.pr| && s.pr[p].at.Some? && CanFork(s, p, e) && x < |s.pr| && y < |s.pr|
    requires s.PlockOk(x, y) && s.PlockOk(x, p) && s.StOk(y) && s.ExitOk(p)
    ensures var s' := DoFork(s, p, e); s'.Shape() && s'.PlockOk(x, y)
  {
    hide HasWait, Sweeps, Woke, Swept, Scanned, Makes, Exiting, Alive, State.Committed;
  }

  lemma ForkMakerOk(s: State, p: nat, e: ForkStep, x: nat, y: nat)
    requires s.Shape() && p < |s.pr| && s.pr[p].at.Some? && CanFork(s, p, e) && x < |s.pr| && y < |s.pr|
    requires s.MakerOk(x, y) && s.MakerOk(x, p) && s.StOk(y) && s.UsedOk(x) && s.ExitOk(p)
    ensures var s' := DoFork(s, p, e); s'.Shape() && s'.MakerOk(x, y)
  {
    hide HasWait, HasPlock, Sweeps, Woke, Swept, Scanned, Exiting, OnCpu, Alive, State.Committed;
  }

  lemma ForkSweptOk(s: State, p: nat, e: ForkStep, x: nat, y: nat)
    requires s.Shape() && p < |s.pr| && s.pr[p].at.Some? && CanFork(s, p, e) && x < |s.pr| && y < |s.pr|
    requires s.SweptOk(x, y) && s.WaitOk(x) && s.WaitOk(p) && s.StOk(x) && s.StOk(p) && s.ExitOk(p)
    ensures var s' := DoFork(s, p, e); s'.Shape() && s'.SweptOk(x, y)
  {
    hide HasPlock, Sweeps, Woke, Scanned, Makes, Exiting, OnCpu, Alive, State.Committed;
  }

  lemma ForkScanOk(s: State, p: nat, e: ForkStep, x: nat, y: nat)
    requires s.Shape() && p < |s.pr| && s.pr[p].at.Some? && CanFork(s, p, e) && x < |s.pr| && y < |s.pr|
    requires s.ScanOk(x, y) && s.WaitOk(x) && s.WaitOk(p) && s.StOk(x) && s.StOk(p) && s.MakerOk(y, p) && s.UsedOk(y)
    requires s.ExitOk(p)
    ensures var s' := DoFork(s, p, e); s'.Shape() && s'.ScanOk(x, y)
  {
    hide HasPlock, Sweeps, Woke, Swept, Exiting, OnCpu, Alive, State.Committed;
  }

  lemma ForkNoLost(s: State, p: nat, e: ForkStep, x: nat, y: nat)
    requires s.Shape() && p < |s.pr| && s.pr[p].at.Some? && CanFork(s, p, e) && x < |s.pr| && y < |s.pr|
    requires s.NoLost(x, y) && s.WaitOk(p) && s.StOk(x) && s.StOk(p) && s.MakerOk(y, p) && s.UsedOk(y) && s.ExitOk(p)
    requires s.waitLock.Some? ==> s.waitLock.value < |s.pr|
    requires s.waitLock.Some? ==> s.WaitOk(s.waitLock.value) && s.StOk(s.waitLock.value)
    ensures var s' := DoFork(s, p, e); s'.Shape() && s'.NoLost(x, y)
  {
    hide HasPlock, Woke, Swept, Scanned, Exiting, Alive;
  }

  lemma ForkCpus(s: State, p: nat, e: ForkStep, x: nat, c: nat)
    requires s.Shape() && p < |s.pr| && s.pr[p].at.Some? && CanFork(s, p, e) && x < |s.pr| && c < |s.cpu|
    requires s.AtOk(x, c) && s.SchedOk(x, c) && s.PlockOk(x, p) && s.ExitOk(p)
    ensures var s' := DoFork(s, p, e); s'.Shape() && s'.AtOk(x, c) && s'.SchedOk(x, c)
  {
    hide HasWait, Sweeps, Woke, Swept, Scanned, Makes, Exiting, OnCpu, Alive, State.Committed;
  }

  lemma ForkInv(s: State, p: nat, e: ForkStep)
    requires s.Inv() && p < |s.pr| && s.pr[p].at.Some? && CanFork(s, p, e)
    ensures DoFork(s, p, e).Inv()
  {
    hide State.WaitOk, State.StOk, State.UsedOk, State.WokeOk, State.ExitOk, State.PlockOk,
         State.MakerOk, State.SweptOk,
         State.ScanOk, State.NoLost, State.AtOk, State.SchedOk;
    var s' := DoFork(s, p, e);
    ForkSizes(s, p, e);
    forall x: nat | x < |s'.pr| ensures s'.WaitOk(x) && s'.ExitOk(x) {
      assert s.WaitOk(x) && s.ExitOk(x) && s.WaitOk(p) && s.StOk(x) && s.ExitOk(p) && s.StOk(p);
      ForkWaitOk(s, p, e, x);
    }
    forall x: nat | x < |s'.pr| ensures s'.StOk(x) {
      assert s.StOk(x) && s.StOk(p) && s.UsedOk(x) && s.MakerOk(x, p) && s.ExitOk(p);
      ForkStOk(s, p, e, x);
    }
    forall x: nat | x < |s'.pr| ensures s'.ParentOk(x) {
      assert s.ParentOk(x) && s.StOk(p) && s.UsedOk(x) && s.MakerOk(x, p) && s.ExitOk(p);
      assert Making(s.pr[p].pc) && s.pr[p].pc.k < |s.pr| ==>
          s.UsedOk(s.pr[p].pc.k) && s.MakerOk(s.pr[p].pc.k, p) && s.StOk(s.pr[p].pc.k);
      ForkParentOk(s, p, e, x);
    }
    forall x: nat | x < |s'.pr| ensures s'.UsedOk(x) {
      assert s.UsedOk(x) && s.StOk(p) && s.UsedOk(p) && s.MakerOk(x, p) && s.StOk(x) && s.ExitOk(p);
      ForkUsedOk(s, p, e, x);
    }
    forall x: nat | x < |s'.pr| ensures s'.WokeOk(x) {
      assert s.WokeOk(x) && s.ParentOk(x) && s.StOk(p) && s.StOk(x) && s.MakerOk(x, p) && s.UsedOk(x) && s.WaitOk(x);
      assert s.WaitOk(p) && s.ExitOk(p);
      assert s.pr[x].parent.Some? ==>
          s.StOk(s.pr[x].parent.value) && s.UsedOk(s.pr[x].parent.value) && s.MakerOk(s.pr[x].parent.value, p);
      ForkWokeOk(s, p, e, x);
    }
    forall x: nat, y: nat | x < |s'.pr| && y < |s'.pr| ensures s'.PlockOk(x, y) {
      assert s.PlockOk(x, y) && s.PlockOk(x, p) && s.StOk(y) && s.ExitOk(p);
      ForkPlockOk(s, p, e, x, y);
    }
    forall x: nat, y: nat | x < |s'.pr| && y < |s'.pr| ensures s'.MakerOk(x, y) {
      assert s.MakerOk(x, y) && s.MakerOk(x, p) && s.StOk(y) && s.UsedOk(x) && s.ExitOk(p);
      ForkMakerOk(s, p, e, x, y);
    }
    forall x: nat, y: nat | x < |s'.pr| && y < |s'.pr| ensures s'.SweptOk(x, y) {
      assert s.SweptOk(x, y) && s.WaitOk(x) && s.WaitOk(p) && s.StOk(x) && s.StOk(p) && s.ExitOk(p);
      ForkSweptOk(s, p, e, x, y);
    }
    forall x: nat, y: nat | x < |s'.pr| && y < |s'.pr| ensures s'.ScanOk(x, y) {
      assert s.ScanOk(x, y) && s.WaitOk(x) && s.WaitOk(p) && s.StOk(x) && s.StOk(p) && s.MakerOk(y, p) && s.UsedOk(y);
      assert s.ExitOk(p);
      ForkScanOk(s, p, e, x, y);
    }
    forall x: nat, y: nat | x < |s'.pr| && y < |s'.pr| ensures s'.NoLost(x, y) {
      assert s.NoLost(x, y) && s.WaitOk(p) && s.StOk(x) && s.StOk(p) && s.MakerOk(y, p) && s.UsedOk(y) && s.ExitOk(p);
      assert s.waitLock.Some? ==> s.WaitOk(s.waitLock.value) && s.StOk(s.waitLock.value);
      ForkNoLost(s, p, e, x, y);
    }
    forall x: nat, c: nat | x < |s'.pr| && c < |s'.cpu| ensures s'.AtOk(x, c) && s'.SchedOk(x, c) {
      assert s.AtOk(x, c) && s.SchedOk(x, c) && s.PlockOk(x, p) && s.ExitOk(p);
      ForkCpus(s, p, e, x, c);
    }
  }

  lemma ForkSizes(s: State, p: nat, e: ForkStep)
    requires s.Shape() && (s.waitLock.Some? ==> s.waitLock.value < |s.pr|) && p < |s.pr| && s.pr[p].at.Some?
    requires CanFork(s, p, e)
    ensures var s' := DoFork(s, p, e); |s'.pr| == |s.pr| && |s'.cpu| == |s.cpu| && (s'.waitLock.Some? ==>
            s'.waitLock.value < |s.pr|)
  {
  }

  lemma ExitWaitOk(s: State, p: nat, e: ExitStep, x: nat)
    requires s.Shape() && p < |s.pr| && s.pr[p].at.Some? && CanExit(s, p, e) && x < |s.pr|
    requires s.WaitOk(x) && s.ExitOk(x) && s.WaitOk(p) && s.ExitOk(p)
    ensures var s' := DoExit(s, p, e); s'.Shape() && s'.WaitOk(x) && s'.ExitOk(x)
  {
    hide HasPlock, Sweeps, Woke, Swept, Scanned, Makes, OnCpu, Alive, State.Committed;
  }

  lemma ExitStOk(s: State, p: nat, e: ExitStep, x: nat)
    requires s.Shape() && p < |s.pr| && s.pr[p].at.Some? && CanExit(s, p, e) && x < |s.pr|
    requires s.StOk(x) && s.ExitOk(p) && s.PlockOk(x, p) && s.PlockOk(x, x)
    ensures var s' := DoExit(s, p, e); s'.Shape() && s'.StOk(x)
  {
    hide HasWait, Sweeps, Woke, Swept, Scanned, Making, Makes, State.Committed;
  }

  lemma ExitParentOk(s: State, p: nat, e: ExitStep, x: nat)
    requires s.Shape() && p < |s.pr| && s.pr[p].at.Some? && CanExit(s, p, e) && x < |s.pr|
    requires s.ParentOk(x) && s.StOk(p) && s.SweptOk(p, x) && s.StOk(0) && s.ExitOk(p) && s.ParentOk(p)
    ensures var s' := DoExit(s, p, e); s'.Shape() && s'.ParentOk(x)
  {
    hide HasWait, HasPlock, Sweeps, Woke, Scanned, Making, Makes, State.Committed;
    var c, s' := ExitChange(s, p, e), DoExit(s, p, e);
    assert s'.pr[x] == if x == p then c.me else if x == c.k then c.it else s.pr[x];
  }

  lemma ExitUsedOk(s: State, p: nat, e: ExitStep, x: nat)
    requires s.Shape() && p < |s.pr| && s.pr[p].at.Some? && CanExit(s, p, e) && x < |s.pr|
    requires s.UsedOk(x) && s.StOk(p) && s.StOk(x) && s.ExitOk(p)
    ensures var s' := DoExit(s, p, e); s'.Shape() && s'.UsedOk(x)
  {
    hide HasWait, HasPlock, Sweeps, Woke, Swept, Scanned, Makes, Exiting, Alive, State.Committed;
  }

  lemma ExitWokeOk(s: State, p: nat, e: ExitStep, x: nat)
    requires s.Shape() && p < |s.pr| && s.pr[p].at.Some? && CanExit(s, p, e) && x < |s.pr|
    requires s.WokeOk(x) && s.ParentOk(x) && s.StOk(p) && s.StOk(x) && s.WaitOk(x) && s.WaitOk(p) && s.ExitOk(p)
    requires s.ParentOk(p)
    requires s.pr[x].parent.Some? ==>
               var q := s.pr[x].parent.value; s.StOk(q) && s.PlockOk(q, q) && s.PlockOk(q, p) && s.WaitOk(q)
    ensures var s' := DoExit(s, p, e); s'.Shape() && s'.WokeOk(x)
  {
    hide Sweeps, Swept, Scanned, Making, Makes;
  }

  lemma ExitPlockOk(s: State, p: nat, e: ExitStep, x: nat, y: nat)
    requires s.Shape() && p < |s.pr| && s.pr[p].at.Some? && CanExit(s, p, e) && x < |s.pr| && y < |s.pr|
    requires s.PlockOk(x, y) && s.ExitOk(p) && s.PlockOk(x, p)
    ensures var s' := DoExit(s, p, e); s'.Shape() && s'.PlockOk(x, y)
  {
    hide HasWait, Sweeps, Woke, Swept, Scanned, Making, Makes, Exiting, OnCpu, Alive, State.Committed;
  }

  lemma ExitMakerOk(s: State, p: nat, e: ExitStep, x: nat, y: nat)
    requires s.Shape() && p < |s.pr| && s.pr[p].at.Some? && CanExit(s, p, e) && x < |s.pr| && y < |s.pr|
    requires s.MakerOk(x, y) && s.ExitOk(p)
    ensures var s' := DoExit(s, p, e); s'.Shape() && s'.MakerOk(x, y)
  {
    hide HasWait, HasPlock, Sweeps, Woke, Swept, Scanned, Exiting, OnCpu, Alive, State.Committed;
  }

  lemma ExitSweptOk(s: State, p: nat, e: ExitStep, x: nat, y: nat)
    requires s.Shape() && p < |s.pr| && s.pr[p].at.Some? && CanExit(s, p, e) && x < |s.pr| && y < |s.pr|
    requires s.SweptOk(x, y) && s.WaitOk(x) && s.WaitOk(p) && s.ExitOk(p) && s.ExitOk(x) && s.ParentOk(p)
    ensures var s' := DoExit(s, p, e); s'.Shape() && s'.SweptOk(x, y)
  {
    hide HasPlock, Sweeps, Woke, Scanned, Making, Makes, OnCpu, Alive, State.Committed;
  }

  lemma ExitScanOk(s: State, p: nat, e: ExitStep, x: nat, y: nat)
    requires s.Shape() && p < |s.pr| && s.pr[p].at.Some? && CanExit(s, p, e) && x < |s.pr| && y < |s.pr|
    requires s.ScanOk(x, y) && s.WaitOk(x) && s.WaitOk(p) && s.ExitOk(p)
    ensures var s' := DoExit(s, p, e); s'.Shape() && s'.ScanOk(x, y)
  {
    hide HasPlock, Sweeps, Woke, Swept, Making, Makes, Exiting, OnCpu, Alive, State.Committed;
  }

  /** reparent wakes init after giving it a child; exit wakes the parent before it becomes a zombie. */
  lemma ExitNoLost(s: State, p: nat, e: ExitStep, x: nat, y: nat)
    requires s.Shape() && p < |s.pr| && s.pr[p].at.Some? && CanExit(s, p, e) && x < |s.pr| && y < |s.pr|
    requires s.NoLost(x, y) && s.WaitOk(p) && s.StOk(x) && s.WokeOk(p) && s.PlockOk(x, x) && s.PlockOk(x, p)
    requires s.ExitOk(p) && s.ParentOk(p)
    ensures var s' := DoExit(s, p, e); s'.Shape() && s'.NoLost(x, y)
  {
    hide Swept, Scanned, Making, Makes, Exiting;
  }

  lemma ExitCpus(s: State, p: nat, e: ExitStep, x: nat, c: nat)
    requires s.Shape() && p < |s.pr| && s.pr[p].at.Some? && CanExit(s, p, e) && x < |s.pr| && c < |s.cpu|
    requires s.AtOk(x, c) && s.SchedOk(x, c) && s.PlockOk(x, p) && s.ExitOk(p)
    ensures var s' := DoExit(s, p, e); s'.Shape() && s'.AtOk(x, c) && s'.SchedOk(x, c)
  {
    hide HasWait, Sweeps, Woke, Swept, Scanned, Making, Makes, Exiting, OnCpu, Alive, State.Committed;
  }

  lemma ExitInv(s: State, p: nat, e: ExitStep)
    requires s.Inv() && p < |s.pr| && s.pr[p].at.Some? && CanExit(s, p, e)
    ensures DoExit(s, p, e).Inv()
  {
    hide State.WaitOk, State.StOk, State.UsedOk, State.WokeOk, State.ExitOk, State.PlockOk,
         State.MakerOk, State.SweptOk,
         State.ScanOk, State.NoLost, State.AtOk, State.SchedOk;
    var s' := DoExit(s, p, e);
    ExitSizes(s, p, e);
    forall x: nat | x < |s'.pr| ensures s'.WaitOk(x) && s'.ExitOk(x) {
      assert s.WaitOk(x) && s.ExitOk(x) && s.WaitOk(p) && s.ExitOk(p);
      ExitWaitOk(s, p, e, x);
    }
    forall x: nat | x < |s'.pr| ensures s'.StOk(x) {
      assert s.StOk(x) && s.ExitOk(p) && s.PlockOk(x, p) && s.PlockOk(x, x);
      ExitStOk(s, p, e, x);
    }
    forall x: nat | x < |s'.pr| ensures s'.ParentOk(x) {
      assert s.ParentOk(x) && s.StOk(p) && s.SweptOk(p, x) && s.StOk(0) && s.ExitOk(p) && s.ParentOk(p);
      ExitParentOk(s, p, e, x);
    }
    forall x: nat | x < |s'.pr| ensures s'.UsedOk(x) {
      assert s.UsedOk(x) && s.StOk(p) && s.StOk(x) && s.ExitOk(p);
      ExitUsedOk(s, p, e, x);
    }
    forall x: nat | x < |s'.pr| ensures s'.WokeOk(x) {
      assert s.WokeOk(x) && s.ParentOk(x) && s.StOk(p) && s.StOk(x) && s.WaitOk(x) && s.WaitOk(p) && s.ExitOk(p)
             && s.ParentOk(p);
      if s.pr[x].parent.Some? {
        var q := s.pr[x].parent.value;
        assert s.StOk(q) && s.PlockOk(q, q) && s.PlockOk(q, p) && s.WaitOk(q);
      }
      ExitWokeOk(s, p, e, x);
    }
    forall x: nat, y: nat | x < |s'.pr| && y < |s'.pr| ensures s'.PlockOk(x, y) {
      assert s.PlockOk(x, y) && s.ExitOk(p) && s.PlockOk(x, p);
      ExitPlockOk(s, p, e, x, y);
    }
    forall x: nat, y: nat | x < |s'.pr| && y < |s'.pr| ensures s'.MakerOk(x, y) {
      assert s.MakerOk(x, y) && s.ExitOk(p);
      ExitMakerOk(s, p, e, x, y);
    }
    forall x: nat, y: nat | x < |s'.pr| && y < |s'.pr| ensures s'.SweptOk(x, y) {
      assert s.SweptOk(x, y) && s.WaitOk(x) && s.WaitOk(p) && s.ExitOk(p) && s.ExitOk(x) && s.ParentOk(p);
      ExitSweptOk(s, p, e, x, y);
    }
    forall x: nat, y: nat | x < |s'.pr| && y < |s'.pr| ensures s'.ScanOk(x, y) {
      assert s.ScanOk(x, y) && s.WaitOk(x) && s.WaitOk(p) && s.ExitOk(p);
      ExitScanOk(s, p, e, x, y);
    }
    forall x: nat, y: nat | x < |s'.pr| && y < |s'.pr| ensures s'.NoLost(x, y) {
      assert s.NoLost(x, y) && s.WaitOk(p) && s.StOk(x) && s.WokeOk(p) && s.PlockOk(x, x) && s.PlockOk(x, p);
      assert s.ExitOk(p) && s.ParentOk(p);
      ExitNoLost(s, p, e, x, y);
    }
    forall x: nat, c: nat | x < |s'.pr| && c < |s'.cpu| ensures s'.AtOk(x, c) && s'.SchedOk(x, c) {
      assert s.AtOk(x, c) && s.SchedOk(x, c) && s.PlockOk(x, p) && s.ExitOk(p);
      ExitCpus(s, p, e, x, c);
    }
  }

  lemma ExitSizes(s: State, p: nat, e: ExitStep)
    requires s.Shape() && (s.waitLock.Some? ==> s.waitLock.value < |s.pr|) && p < |s.pr| && s.pr[p].at.Some?
    requires CanExit(s, p, e)
    ensures var s' := DoExit(s, p, e); |s'.pr| == |s.pr| && |s'.cpu| == |s.cpu| && (s'.waitLock.Some? ==>
            s'.waitLock.value < |s.pr|)
  {
  }

  lemma WaitWaitOk(s: State, p: nat, e: WaitStep, x: nat)
    requires s.Shape() && p < |s.pr| && s.pr[p].at.Some? && CanWait(s, p, e) && x < |s.pr|
    requires s.WaitOk(x) && s.ExitOk(x) && s.WaitOk(p) && s.ExitOk(p) && s.ParentOk(x)
    requires s.pr[p].pc.Scan? && s.pr[p].pc.k < |s.pr| ==> s.ParentOk(s.pr[p].pc.k)
    ensures var s' := DoWait(s, p, e); s'.Shape() && s'.WaitOk(x) && s'.ExitOk(x)
  {
    hide HasPlock, Sweeps, Woke, Swept, Scanned, Makes, OnCpu, Alive, State.Committed;
    var c, s' := WaitChange(s, p, e), DoWait(s, p, e);
    assert s'.pr[x] == if x == p then c.me else if x == c.k then c.it else s.pr[x];
  }

  /** Only a process that is off its kernel stack is reaped. */
  lemma WaitStOk(s: State, p: nat, e: WaitStep, x: nat)
    requires s.Shape() && p < |s.pr| && s.pr[p].at.Some? && CanWait(s, p, e) && x < |s.pr|
    requires s.StOk(x) && s.ExitOk(p) && s.PlockOk(x, p) && s.PlockOk(x, x)
    ensures var s' := DoWait(s, p, e); s'.Shape() && s'.StOk(x)
  {
    hide HasWait, Sweeps, Woke, Swept, Scanned, Making, Makes, Exiting, State.Committed;
    var c, s' := WaitChange(s, p, e), DoWait(s, p, e);
    assert s'.pr[x] == if x == p then c.me else if x == c.k then c.it else s.pr[x];
  }

  lemma WaitParentOk(s: State, p: nat, e: WaitStep, x: nat)
    requires s.Shape() && p < |s.pr| && s.pr[p].at.Some? && CanWait(s, p, e) && x < |s.pr|
    requires s.ParentOk(x) && s.StOk(p) && s.ExitOk(p)
    requires s.pr[x].parent.Some? ==> s.StOk(s.pr[x].parent.value)
    ensures var s' := DoWait(s, p, e); s'.Shape() && s'.ParentOk(x)
  {
    hide HasWait, HasPlock, Sweeps, Woke, Swept, Scanned, Making, Makes, Exiting, State.Committed;
  }

  lemma WaitUsedOk(s: State, p: nat, e: WaitStep, x: nat)
    requires s.Shape() && p < |s.pr| && s.pr[p].at.Some? && CanWait(s, p, e) && x < |s.pr|
    requires s.UsedOk(x) && s.StOk(p) && s.StOk(x) && s.ExitOk(p)
    ensures var s' := DoWait(s, p, e); s'.Shape() && s'.UsedOk(x)
  {
    hide HasWait, HasPlock, Sweeps, Woke, Swept, Scanned, Makes, Exiting, Alive, State.Committed;
  }

  lemma WaitWokeOk(s: State, p: nat, e: WaitStep, x: nat)
    requires s.Shape() && p < |s.pr| && s.pr[p].at.Some? && CanWait(s, p, e) && x < |s.pr|
    requires s.WokeOk(x) && s.ParentOk(x) && s.StOk(p) && s.StOk(x) && s.WaitOk(x) && s.WaitOk(p) && s.ExitOk(p)
    requires s.pr[x].parent.Some? ==> s.StOk(s.pr[x].parent.value) && s.WaitOk(s.pr[x].parent.value)
    ensures var s' := DoWait(s, p, e); s'.Shape() && s'.WokeOk(x)
  {
    hide HasPlock, Sweeps, Swept, Scanned, Making, Makes, Exiting;
  }

  lemma WaitPlockMine(s: State, p: nat, e: WaitStep, x: nat)
    requires s.Shape() && p < |s.pr| && s.pr[p].at.Some? && CanWait(s, p, e) && x < |s.pr|
    requires s.PlockOk(x, p) && s.ExitOk(p)
    requires s.pr[p].pc.Scan? && s.pr[p].pc.k < |s.pr| ==> s.ParentOk(s.pr[p].pc.k)
    ensures var s' := DoWait(s, p, e); s'.Shape() && s'.PlockOk(x, p)
  {
    hide HasWait, Sweeps, Woke, Swept, Scanned, Making, Makes, Exiting, OnCpu, Alive, State.Committed;
    var c, s' := WaitChange(s, p, e), DoWait(s, p, e);
    assert s'.pr[p] == c.me && s'.pr[x] == if x == p then c.me else if x == c.k then c.it else s.pr[x];
  }

  lemma WaitPlockOthers(s: State, p: nat, e: WaitStep, x: nat, y: nat)
    requires s.Shape() && p < |s.pr| && s.pr[p].at.Some? && CanWait(s, p, e) && x < |s.pr| && y < |s.pr| && y != p
    requires s.PlockOk(x, y) && s.PlockOk(x, p) && s.ExitOk(p)
    ensures var s' := DoWait(s, p, e); s'.Shape() && s'.PlockOk(x, y)
  {
    hide HasWait, Sweeps, Woke, Swept, Scanned, Making, Makes, Exiting, OnCpu, Alive, State.Committed;
  }

  lemma WaitPlockOk(s: State, p: nat, e: WaitStep, x: nat, y: nat)
    requires s.Shape() && p < |s.pr| && s.pr[p].at.Some? && CanWait(s, p, e) && x < |s.pr| && y < |s.pr|
    requires s.PlockOk(x, y) && s.ExitOk(p) && s.PlockOk(x, p)
    requires s.pr[p].pc.Scan? && s.pr[p].pc.k < |s.pr| ==> s.ParentOk(s.pr[p].pc.k)
    ensures var s' := DoWait(s, p, e); s'.Shape() && s'.PlockOk(x, y)
  {
    hide State.PlockOk, WaitChange;
    if y == p {
      WaitPlockMine(s, p, e, x);
    } else {
      WaitPlockOthers(s, p, e, x, y);
    }
  }

  lemma WaitMakerOk(s: State, p: nat, e: WaitStep, x: nat, y: nat)
    requires s.Shape() && p < |s.pr| && s.pr[p].at.Some? && CanWait(s, p, e) && x < |s.pr| && y < |s.pr|
    requires s.MakerOk(x, y) && s.ExitOk(p)
    ensures var s' := DoWait(s, p, e); s'.Shape() && s'.MakerOk(x, y)
  {
    hide HasWait, HasPlock, Sweeps, Woke, Swept, Scanned, Exiting, OnCpu, Alive, State.Committed;
  }

  lemma WaitSweptOk(s: State, p: nat, e: WaitStep, x: nat, y: nat)
    requires s.Shape() && p < |s.pr| && s.pr[p].at.Some? && CanWait(s, p, e) && x < |s.pr| && y < |s.pr|
    requires s.SweptOk(x, y) && s.WaitOk(x) && s.WaitOk(p) && s.ExitOk(p)
    ensures var s' := DoWait(s, p, e); s'.Shape() && s'.SweptOk(x, y)
  {
    hide HasPlock, Sweeps, Woke, Scanned, Making, Makes, Exiting, OnCpu, Alive, State.Committed;
  }

  lemma WaitScanOk(s: State, p: nat, e: WaitStep, x: nat, y: nat)
    requires s.Shape() && p < |s.pr| && s.pr[p].at.Some? && CanWait(s, p, e) && x < |s.pr| && y < |s.pr|
    requires s.ScanOk(x, y) && s.WaitOk(x) && s.WaitOk(p) && s.ExitOk(p)
    ensures var s' := DoWait(s, p, e); s'.Shape() && s'.ScanOk(x, y)
  {
    hide HasPlock, Sweeps, Woke, Swept, Making, Makes, Exiting, OnCpu, Alive, State.Committed;
  }

  /** wait has looked at all children under wait_lock before it sleeps. */
  lemma WaitNoLostMine(s: State, p: nat, e: WaitStep, y: nat)
    requires s.Shape() && p < |s.pr| && s.pr[p].at.Some? && CanWait(s, p, e) && y < |s.pr|
    requires s.NoLost(p, y) && s.WaitOk(p) && s.StOk(p) && s.ScanOk(p, y) && s.ExitOk(p)
    ensures var s' := DoWait(s, p, e); s'.Shape() && s'.NoLost(p, y)
  {
    hide HasPlock, Woke, Swept, Making, Makes, Exiting, Alive;
  }

  lemma WaitNoLostOthers(s: State, p: nat, e: WaitStep, x: nat, y: nat)
    requires s.Shape() && p < |s.pr| && s.pr[p].at.Some? && CanWait(s, p, e) && x < |s.pr| && y < |s.pr| && x != p
    requires s.NoLost(x, y) && s.WaitOk(p) && s.WaitOk(x) && s.StOk(x) && s.StOk(p) && s.ExitOk(p)
    ensures var s' := DoWait(s, p, e); s'.Shape() && s'.NoLost(x, y)
  {
    hide HasPlock, Woke, Swept, Scanned, Making, Makes, Exiting, Alive;
  }

  lemma WaitNoLost(s: State, p: nat, e: WaitStep, x: nat, y: nat)
    requires s.Shape() && p < |s.pr| && s.pr[p].at.Some? && CanWait(s, p, e) && x < |s.pr| && y < |s.pr|
    requires s.NoLost(x, y) && s.WaitOk(p) && s.WaitOk(x) && s.StOk(x) && s.StOk(p) && s.ScanOk(p, y) && s.ExitOk(p)
    ensures var s' := DoWait(s, p, e); s'.Shape() && s'.NoLost(x, y)
  {
    if x == p {
      WaitNoLostMine(s, p, e, y);
    } else {
      WaitNoLostOthers(s, p, e, x, y);
    }
  }

  lemma WaitCpus(s: State, p: nat, e: WaitStep, x: nat, c: nat)
    requires s.Shape() && p < |s.pr| && s.pr[p].at.Some? && CanWait(s, p, e) && x < |s.pr| && c < |s.cpu|
    requires s.AtOk(x, c) && s.SchedOk(x, c) && s.PlockOk(x, p) && s.ExitOk(p)
    ensures var s' := DoWait(s, p, e); s'.Shape() && s'.AtOk(x, c) && s'.SchedOk(x, c)
  {
    hide HasWait, Sweeps, Woke, Swept, Scanned, Making, Makes, Exiting, OnCpu, Alive, State.Committed;
  }

  lemma WaitInv(s: State, p: nat, e: WaitStep)
    requires s.Inv() && p < |s.pr| && s.pr[p].at.Some? && CanWait(s, p, e)
    ensures DoWait(s, p, e).Inv()
  {
    hide State.WaitOk, State.StOk, State.UsedOk, State.WokeOk, State.ExitOk, State.PlockOk,
         State.MakerOk, State.SweptOk,
         State.ScanOk, State.NoLost, State.AtOk, State.SchedOk;
    var s' := DoWait(s, p, e);
    WaitSizes(s, p, e);
    forall x: nat | x < |s'.pr| ensures s'.WaitOk(x) && s'.ExitOk(x) {
      assert s.WaitOk(x) && s.ExitOk(x) && s.WaitOk(p) && s.ExitOk(p) && s.ParentOk(x);
      assert s.pr[p].pc.Scan? && s.pr[p].pc.k < |s.pr| ==> s.ParentOk(s.pr[p].pc.k);
      WaitWaitOk(s, p, e, x);
    }
    forall x: nat | x < |s'.pr| ensures s'.StOk(x) {
      assert s.StOk(x) && s.ExitOk(p) && s.PlockOk(x, p) && s.PlockOk(x, x);
      WaitStOk(s, p, e, x);
    }
    forall x: nat | x < |s'.pr| ensures s'.ParentOk(x) {
      assert s.ParentOk(x) && s.StOk(p) && s.ExitOk(p);
      assert s.pr[x].parent.Some? ==> s.StOk(s.pr[x].parent.value);
      WaitParentOk(s, p, e, x);
    }
    forall x: nat | x < |s'.pr| ensures s'.UsedOk(x) {
      assert s.UsedOk(x) && s.StOk(p) && s.StOk(x) && s.ExitOk(p);
      WaitUsedOk(s, p, e, x);
    }
    forall x: nat | x < |s'.pr| ensures s'.WokeOk(x) {
      assert s.WokeOk(x) && s.ParentOk(x) && s.StOk(p) && s.StOk(x) && s.WaitOk(x) && s.WaitOk(p) && s.ExitOk(p);
      assert s.pr[x].parent.Some? ==> s.StOk(s.pr[x].parent.value) && s.WaitOk(s.pr[x].parent.value);
      WaitWokeOk(s, p, e, x);
    }
    forall x: nat, y: nat | x < |s'.pr| && y < |s'.pr| ensures s'.PlockOk(x, y) {
      assert s.PlockOk(x, y) && s.ExitOk(p) && s.PlockOk(x, p);
      assert s.pr[p].pc.Scan? && s.pr[p].pc.k < |s.pr| ==> s.ParentOk(s.pr[p].pc.k);
      WaitPlockOk(s, p, e, x, y);
    }
    forall x: nat, y: nat | x < |s'.pr| && y < |s'.pr| ensures s'.MakerOk(x, y) {
      assert s.MakerOk(x, y) && s.ExitOk(p);
      WaitMakerOk(s, p, e, x, y);
    }
    forall x: nat, y: nat | x < |s'.pr| && y < |s'.pr| ensures s'.SweptOk(x, y) {
      assert s.SweptOk(x, y) && s.WaitOk(x) && s.WaitOk(p) && s.ExitOk(p);
      WaitSweptOk(s, p, e, x, y);
    }
    forall x: nat, y: nat | x < |s'.pr| && y < |s'.pr| ensures s'.ScanOk(x, y) {
      assert s.ScanOk(x, y) && s.WaitOk(x) && s.WaitOk(p) && s.ExitOk(p);
      WaitScanOk(s, p, e, x, y);
    }
    forall x: nat, y: nat | x < |s'.pr| && y < |s'.pr| ensures s'.NoLost(x, y) {
      assert s.NoLost(x, y) && s.WaitOk(p) && s.WaitOk(x) && s.StOk(x) && s.StOk(p) && s.ScanOk(p, y) && s.ExitOk(p);
      WaitNoLost(s, p, e, x, y);
    }
    forall x: nat, c: nat | x < |s'.pr| && c < |s'.cpu| ensures s'.AtOk(x, c) && s'.SchedOk(x, c) {
      assert s.AtOk(x, c) && s.SchedOk(x, c) && s.PlockOk(x, p) && s.ExitOk(p);
      WaitCpus(s, p, e, x, c);
    }
  }

  lemma WaitSizes(s: State, p: nat, e: WaitStep)
    requires s.Shape() && (s.waitLock.Some? ==> s.waitLock.value < |s.pr|) && p < |s.pr| && s.pr[p].at.Some?
    requires CanWait(s, p, e)
    ensures var s' := DoWait(s, p, e); |s'.pr| == |s.pr| && |s'.cpu| == |s.cpu| && (s'.waitLock.Some? ==>
            s'.waitLock.value < |s.pr|)
  {
  }

  lemma YieldWaitOk(s: State, p: nat, e: YieldStep, x: nat)
    requires s.Shape() && p < |s.pr| && s.pr[p].at.Some? && CanYield(s, p, e) && x < |s.pr|
    requires s.WaitOk(x) && s.ExitOk(x)
    ensures var s' := DoYield(s, p, e); s'.Shape() && s'.WaitOk(x) && s'.ExitOk(x)
  {
    hide HasPlock, Sweeps, Woke, Swept, Scanned, Makes, OnCpu, Alive, State.Committed;
  }

  lemma YieldStOk(s: State, p: nat, e: YieldStep, x: nat)
    requires s.Shape() && p < |s.pr| && s.pr[p].at.Some? && CanYield(s, p, e) && x < |s.pr|
    requires s.StOk(x)
    ensures var s' := DoYield(s, p, e); s'.Shape() && s'.StOk(x)
  {
    hide HasWait, HasPlock, Sweeps, Woke, Swept, Scanned, Making, Makes, Exiting, State.Committed;
    var s' := DoYield(s, p, e);
    assert s'.pr[x] == if x == p then Yielded(s, p, e) else s.pr[x];
  }

  lemma YieldParentOk(s: State, p: nat, e: YieldStep, x: nat)
    requires s.Shape() && p < |s.pr| && s.pr[p].at.Some? && CanYield(s, p, e) && x < |s.pr|
    requires s.ParentOk(x) && s.StOk(p)
    ensures var s' := DoYield(s, p, e); s'.Shape() && s'.ParentOk(x)
  {
    hide HasWait, HasPlock, Sweeps, Woke, Swept, Scanned, Making, Makes, Exiting, State.Committed;
  }

  lemma YieldUsedOk(s: State, p: nat, e: YieldStep, x: nat)
    requires s.Shape() && p < |s.pr| && s.pr[p].at.Some? && CanYield(s, p, e) && x < |s.pr|
    requires s.UsedOk(x) && s.StOk(x)
    ensures var s' := DoYield(s, p, e); s'.Shape() && s'.UsedOk(x)
  {
    hide HasWait, HasPlock, Sweeps, Woke, Swept, Scanned, Makes, Exiting, Alive, State.Committed;
  }

  lemma YieldWokeOk(s: State, p: nat, e: YieldStep, x: nat)
    requires s.Shape() && p < |s.pr| && s.pr[p].at.Some? && CanYield(s, p, e) && x < |s.pr|
    requires s.WokeOk(x) && s.StOk(p)
    ensures var s' := DoYield(s, p, e); s'.Shape() && s'.WokeOk(x)
  {
    hide HasWait, HasPlock, Sweeps, Swept, Scanned, Making, Makes, Exiting, Alive;
  }

  lemma YieldPlockOk(s: State, p: nat, e: YieldStep, x: nat, y: nat)
    requires s.Shape() && p < |s.pr| && s.pr[p].at.Some? && CanYield(s, p, e) && x < |s.pr| && y < |s.pr|
    requires s.PlockOk(x, y) && s.PlockOk(x, p)
    ensures var s' := DoYield(s, p, e); s'.Shape() && s'.PlockOk(x, y)
  {
    hide HasWait, Sweeps, Woke, Swept, Scanned, Making, Makes, Exiting, OnCpu, Alive, State.Committed;
  }

  lemma YieldMakerOk(s: State, p: nat, e: YieldStep, x: nat, y: nat)
    requires s.Shape() && p < |s.pr| && s.pr[p].at.Some? && CanYield(s, p, e) && x < |s.pr| && y < |s.pr|
    requires s.MakerOk(x, y)
    ensures var s' := DoYield(s, p, e); s'.Shape() && s'.MakerOk(x, y)
  {
    hide HasWait, HasPlock, Sweeps, Woke, Swept, Scanned, Exiting, OnCpu, Alive, State.Committed;
  }

  lemma YieldSweptOk(s: State, p: nat, e: YieldStep, x: nat, y: nat)
    requires s.Shape() && p < |s.pr| && s.pr[p].at.Some? && CanYield(s, p, e) && x < |s.pr| && y < |s.pr|
    requires s.SweptOk(x, y)
    ensures var s' := DoYield(s, p, e); s'.Shape() && s'.SweptOk(x, y)
  {
    hide HasWait, HasPlock, Sweeps, Woke, Scanned, Making, Makes, Exiting, OnCpu, Alive, State.Committed;
  }

  lemma YieldScanOk(s: State, p: nat, e: YieldStep, x: nat, y: nat)
    requires s.Shape() && p < |s.pr| && s.pr[p].at.Some? && CanYield(s, p, e) && x < |s.pr| && y < |s.pr|
    requires s.ScanOk(x, y) && s.StOk(y)
    ensures var s' := DoYield(s, p, e); s'.Shape() && s'.ScanOk(x, y)
  {
    hide HasWait, HasPlock, Sweeps, Woke, Swept, Making, Makes, Exiting, Alive, State.Committed;
  }

  lemma YieldNoLost(s: State, p: nat, e: YieldStep, x: nat, y: nat)
    requires s.Shape() && p < |s.pr| && s.pr[p].at.Some? && CanYield(s, p, e) && x < |s.pr| && y < |s.pr|
    requires s.NoLost(x, y) && s.StOk(x) && s.StOk(y) && s.StOk(p)
    requires s.waitLock.Some? ==> s.waitLock.value < |s.pr|
    requires s.waitLock.Some? ==> s.WaitOk(s.waitLock.value)
    ensures var s' := DoYield(s, p, e); s'.Shape() && s'.NoLost(x, y)
  {
    hide HasPlock, Woke, Swept, Scanned, Making, Makes, Exiting, Alive;
  }

  lemma YieldCpus(s: State, p: nat, e: YieldStep, x: nat, c: nat)
    requires s.Shape() && p < |s.pr| && s.pr[p].at.Some? && CanYield(s, p, e) && x < |s.pr| && c < |s.cpu|
    requires s.AtOk(x, c) && s.SchedOk(x, c) && s.StOk(p) && s.PlockOk(p, p) && s.AtOk(p, c) && s.SchedOk(p, c)
    requires e == Switch ==> s.AtOk(x, s.pr[p].at.value) && s.SchedOk(x, s.pr[p].at.value)
    requires e == Switch ==> s.AtOk(p, s.pr[p].at.value)
    ensures var s' := DoYield(s, p, e); s'.Shape() && s'.AtOk(x, c) && s'.SchedOk(x, c)
  {
    hide HasWait, Sweeps, Woke, Swept, Scanned, Making, Makes, Exiting, Alive, State.Committed;
  }

  lemma YieldInv(s: State, p: nat, e: YieldStep)
    requires s.Inv() && p < |s.pr| && s.pr[p].at.Some? && CanYield(s, p, e)
    ensures DoYield(s, p, e).Inv()
  {
    hide State.WaitOk, State.StOk, State.UsedOk, State.WokeOk, State.ExitOk, State.PlockOk,
         State.MakerOk, State.SweptOk,
         State.ScanOk, State.NoLost, State.AtOk, State.SchedOk;
    var s' := DoYield(s, p, e);
    YieldSizes(s, p, e);
    forall x: nat | x < |s'.pr| ensures s'.WaitOk(x) && s'.ExitOk(x) {
      assert s.WaitOk(x) && s.ExitOk(x);
      YieldWaitOk(s, p, e, x);
    }
    forall x: nat | x < |s'.pr| ensures s'.StOk(x) {
      assert s.StOk(x);
      YieldStOk(s, p, e, x);
    }
    forall x: nat | x < |s'.pr| ensures s'.ParentOk(x) {
      assert s.ParentOk(x) && s.StOk(p);
      YieldParentOk(s, p, e, x);
    }
    forall x: nat | x < |s'.pr| ensures s'.UsedOk(x) {
      assert s.UsedOk(x) && s.StOk(x);
      YieldUsedOk(s, p, e, x);
    }
    forall x: nat | x < |s'.pr| ensures s'.WokeOk(x) {
      assert s.WokeOk(x) && s.StOk(p);
      YieldWokeOk(s, p, e, x);
    }
    forall x: nat, y: nat | x < |s'.pr| && y < |s'.pr| ensures s'.PlockOk(x, y) {
      assert s.PlockOk(x, y) && s.PlockOk(x, p);
      YieldPlockOk(s, p, e, x, y);
    }
    forall x: nat, y: nat | x < |s'.pr| && y < |s'.pr| ensures s'.MakerOk(x, y) {
      assert s.MakerOk(x, y);
      YieldMakerOk(s, p, e, x, y);
    }
    forall x: nat, y: nat | x < |s'.pr| && y < |s'.pr| ensures s'.SweptOk(x, y) {
      assert s.SweptOk(x, y);
      YieldSweptOk(s, p, e, x, y);
    }
    forall x: nat, y: nat | x < |s'.pr| && y < |s'.pr| ensures s'.ScanOk(x, y) {
      assert s.ScanOk(x, y) && s.StOk(y);
      YieldScanOk(s, p, e, x, y);
    }
    forall x: nat, y: nat | x < |s'.pr| && y < |s'.pr| ensures s'.NoLost(x, y) {
      assert s.NoLost(x, y) && s.StOk(x) && s.StOk(y) && s.StOk(p);
      assert s.waitLock.Some? ==> s.WaitOk(s.waitLock.value);
      YieldNoLost(s, p, e, x, y);
    }
    forall x: nat, c: nat | x < |s'.pr| && c < |s'.cpu| ensures s'.AtOk(x, c) && s'.SchedOk(x, c) {
      assert s.AtOk(x, c) && s.SchedOk(x, c) && s.StOk(p) && s.PlockOk(p, p) && s.AtOk(p, c) && s.SchedOk(p, c);
      assert e == Switch ==>
          s.AtOk(x, s.pr[p].at.value) && s.SchedOk(x, s.pr[p].at.value) && s.AtOk(p, s.pr[p].at.value);
      YieldCpus(s, p, e, x, c);
    }
  }

  lemma YieldSizes(s: State, p: nat, e: YieldStep)
    requires s.Shape() && (s.waitLock.Some? ==> s.waitLock.value < |s.pr|) && p < |s.pr| && s.pr[p].at.Some?
    requires CanYield(s, p, e)
    ensures var s' := DoYield(s, p, e); |s'.pr| == |s.pr| && |s'.cpu| == |s.cpu| && (s'.waitLock.Some? ==>
            s'.waitLock.value < |s.pr|)
  {
  }

  lemma SchedWaitOk(s: State, d: nat, k: nat, e: SchedStep, x: nat)
    requires s.Shape() && d < |s.cpu| && k < |s.pr| && CanSched(s, d, k, e) && x < |s.pr|
    requires s.WaitOk(x) && s.ExitOk(x)
    ensures var s' := DoSched(s, d, k, e); s'.Shape() && s'.WaitOk(x) && s'.ExitOk(x)
  {
    hide HasPlock, Sweeps, Woke, Swept, Scanned, Makes, OnCpu, Alive, State.Committed;
  }

  lemma SchedStOk(s: State, d: nat, k: nat, e: SchedStep, x: nat)
    requires s.Shape() && d < |s.cpu| && k < |s.pr| && CanSched(s, d, k, e) && x < |s.pr|
    requires s.StOk(x) && s.StOk(k) && s.PlockOk(k, k) && s.SchedOk(k, d)
    ensures var s' := DoSched(s, d, k, e); s'.Shape() && s'.StOk(x)
  {
    hide HasWait, Sweeps, Woke, Swept, Scanned, Making, Makes, Exiting, State.Committed;
  }

  lemma SchedParentOk(s: State, d: nat, k: nat, e: SchedStep, x: nat)
    requires s.Shape() && d < |s.cpu| && k < |s.pr| && CanSched(s, d, k, e) && x < |s.pr|
    requires s.ParentOk(x) && s.StOk(k) && s.PlockOk(k, k) && s.SchedOk(k, d)
    ensures var s' := DoSched(s, d, k, e); s'.Shape() && s'.ParentOk(x)
  {
    hide HasWait, HasPlock, Sweeps, Woke, Swept, Scanned, Making, Makes, Exiting, OnCpu, Fits, State.Committed,
         State.StOk, State.PlockOk, State.SchedOk;
  }

  lemma SchedUsedOk(s: State, d: nat, k: nat, e: SchedStep, x: nat)
    requires s.Shape() && d < |s.cpu| && k < |s.pr| && CanSched(s, d, k, e) && x < |s.pr|
    requires s.UsedOk(x) && s.StOk(k) && s.PlockOk(k, k) && s.SchedOk(k, d)
    ensures var s' := DoSched(s, d, k, e); s'.Shape() && s'.UsedOk(x)
  {
    hide HasWait, Sweeps, Woke, Swept, Scanned, Makes, Exiting, Alive, State.Committed;
  }

  lemma SchedWokeOk(s: State, d: nat, k: nat, e: SchedStep, x: nat)
    requires s.Shape() && d < |s.cpu| && k < |s.pr| && CanSched(s, d, k, e) && x < |s.pr|
    requires s.WokeOk(x) && s.ParentOk(x) && s.StOk(k) && s.PlockOk(k, k) && s.SchedOk(k, d)
    ensures var s' := DoSched(s, d, k, e); s'.Shape() && s'.WokeOk(x)
  {
    hide HasWait, Sweeps, Swept, Scanned, Making, Makes, Exiting;
  }

  lemma SchedPlockOk(s: State, d: nat, k: nat, e: SchedStep, x: nat, y: nat)
    requires s.Shape() && d < |s.cpu| && k < |s.pr| && CanSched(s, d, k, e) && x < |s.pr| && y < |s.pr|
    requires s.PlockOk(x, y) && s.StOk(y) && s.PlockOk(k, y) && s.StOk(k) && s.PlockOk(k, k) && s.SchedOk(k, d)
    ensures var s' := DoSched(s, d, k, e); s'.Shape() && s'.PlockOk(x, y)
  {
    hide HasWait, Sweeps, Woke, Swept, Scanned, Making, Makes, Exiting, Alive, State.Committed;
  }

  lemma SchedMakerOk(s: State, d: nat, k: nat, e: SchedStep, x: nat, y: nat)
    requires s.Shape() && d < |s.cpu| && k < |s.pr| && CanSched(s, d, k, e) && x < |s.pr| && y < |s.pr|
    requires s.MakerOk(x, y)
    ensures var s' := DoSched(s, d, k, e); s'.Shape() && s'.MakerOk(x, y)
  {
    hide HasWait, HasPlock, Sweeps, Woke, Swept, Scanned, Exiting, OnCpu, Alive, State.Committed;
  }

  lemma SchedSweptOk(s: State, d: nat, k: nat, e: SchedStep, x: nat, y: nat)
    requires s.Shape() && d < |s.cpu| && k < |s.pr| && CanSched(s, d, k, e) && x < |s.pr| && y < |s.pr|
    requires s.SweptOk(x, y)
    ensures var s' := DoSched(s, d, k, e); s'.Shape() && s'.SweptOk(x, y)
  {
    hide HasWait, HasPlock, Sweeps, Woke, Scanned, Making, Makes, Exiting, OnCpu, Alive, State.Committed;
  }

  lemma SchedScanOk(s: State, d: nat, k: nat, e: SchedStep, x: nat, y: nat)
    requires s.Shape() && d < |s.cpu| && k < |s.pr| && CanSched(s, d, k, e) && x < |s.pr| && y < |s.pr|
    requires s.ScanOk(x, y) && s.StOk(y) && s.StOk(k) && s.PlockOk(k, k) && s.SchedOk(k, d)
    ensures var s' := DoSched(s, d, k, e); s'.Shape() && s'.ScanOk(x, y)
  {
    hide HasWait, Sweeps, Woke, Swept, Making, Makes, Exiting, Alive, State.Committed;
  }

  lemma SchedNoLost(s: State, d: nat, k: nat, e: SchedStep, x: nat, y: nat)
    requires s.Shape() && d < |s.cpu| && k < |s.pr| && CanSched(s, d, k, e) && x < |s.pr| && y < |s.pr|
    requires s.NoLost(x, y) && s.StOk(x) && s.StOk(y) && s.StOk(k) && s.PlockOk(k, k) && s.SchedOk(k, d)
    ensures var s' := DoSched(s, d, k, e); s'.Shape() && s'.NoLost(x, y)
  {
    hide HasWait, Woke, Swept, Scanned, Making, Makes, Exiting, Alive;
  }

  lemma SchedCpus(s: State, d: nat, k: nat, e: SchedStep, x: nat, c: nat)
    requires s.Shape() && d < |s.cpu| && k < |s.pr| && CanSched(s, d, k, e) && x < |s.pr| && c < |s.cpu|
    requires s.AtOk(x, c) && s.SchedOk(x, c) && s.StOk(k) && s.PlockOk(k, k) && s.SchedOk(k, d) && s.SchedOk(x, d)
    requires s.AtOk(x, d) && s.SchedOk(k, c) && s.AtOk(k, c)
    ensures var s' := DoSched(s, d, k, e); s'.Shape() && s'.AtOk(x, c) && s'.SchedOk(x, c)
  {
    hide HasWait, Sweeps, Woke, Swept, Scanned, Making, Makes, Exiting, Alive, State.Committed;
  }

  lemma SchedInv(s: State, d: nat, k: nat, e: SchedStep)
    requires s.Inv() && d < |s.cpu| && k < |s.pr| && CanSched(s, d, k, e)
    ensures DoSched(s, d, k, e).Inv()
  {
    hide State.WaitOk, State.StOk, State.UsedOk, State.WokeOk, State.ExitOk, State.PlockOk,
         State.MakerOk, State.SweptOk,
         State.ScanOk, State.NoLost, State.AtOk, State.SchedOk;
    var s' := DoSched(s, d, k, e);
    SchedSizes(s, d, k, e);
    forall x: nat | x < |s'.pr| ensures s'.WaitOk(x) && s'.ExitOk(x) {
      assert s.WaitOk(x) && s.ExitOk(x);
      SchedWaitOk(s, d, k, e, x);
    }
    forall x: nat | x < |s'.pr| ensures s'.StOk(x) {
      assert s.StOk(x) && s.StOk(k) && s.PlockOk(k, k) && s.SchedOk(k, d);
      SchedStOk(s, d, k, e, x);
    }
    forall x: nat | x < |s'.pr| ensures s'.ParentOk(x) {
      assert s.ParentOk(x) && s.StOk(k) && s.PlockOk(k, k) && s.SchedOk(k, d);
      SchedParentOk(s, d, k, e, x);
    }
    forall x: nat | x < |s'.pr| ensures s'.UsedOk(x) {
      assert s.UsedOk(x) && s.StOk(k) && s.PlockOk(k, k) && s.SchedOk(k, d);
      SchedUsedOk(s, d, k, e, x);
    }
    forall x: nat | x < |s'.pr| ensures s'.WokeOk(x) {
      assert s.WokeOk(x) && s.ParentOk(x) && s.StOk(k) && s.PlockOk(k, k) && s.SchedOk(k, d);
      SchedWokeOk(s, d, k, e, x);
    }
    forall x: nat, y: nat | x < |s'.pr| && y < |s'.pr| ensures s'.PlockOk(x, y) {
      assert s.PlockOk(x, y) && s.StOk(y) && s.PlockOk(k, y) && s.StOk(k) && s.PlockOk(k, k) && s.SchedOk(k, d);
      SchedPlockOk(s, d, k, e, x, y);
    }
    forall x: nat, y: nat | x < |s'.pr| && y < |s'.pr| ensures s'.MakerOk(x, y) {
      assert s.MakerOk(x, y);
      SchedMakerOk(s, d, k, e, x, y);
    }
    forall x: nat, y: nat | x < |s'.pr| && y < |s'.pr| ensures s'.SweptOk(x, y) {
      assert s.SweptOk(x, y);
      SchedSweptOk(s, d, k, e, x, y);
    }
    forall x: nat, y: nat | x < |s'.pr| && y < |s'.pr| ensures s'.ScanOk(x, y) {
      assert s.ScanOk(x, y) && s.StOk(y) && s.StOk(k) && s.PlockOk(k, k) && s.SchedOk(k, d);
      SchedScanOk(s, d, k, e, x, y);
    }
    forall x: nat, y: nat | x < |s'.pr| && y < |s'.pr| ensures s'.NoLost(x, y) {
      assert s.NoLost(x, y) && s.StOk(x) && s.StOk(y) && s.StOk(k) && s.PlockOk(k, k) && s.SchedOk(k, d);
      SchedNoLost(s, d, k, e, x, y);
    }
    forall x: nat, c: nat | x < |s'.pr| && c < |s'.cpu| ensures s'.AtOk(x, c) && s'.SchedOk(x, c) {
      assert s.AtOk(x, c) && s.SchedOk(x, c) && s.StOk(k) && s.PlockOk(k, k) && s.SchedOk(k, d) && s.SchedOk(x, d);
      assert s.AtOk(x, d) && s.SchedOk(k, c) && s.AtOk(k, c);
      SchedCpus(s, d, k, e, x, c);
    }
  }

  lemma SchedSizes(s: State, d: nat, k: nat, e: SchedStep)
    requires s.Shape() && (s.waitLock.Some? ==> s.waitLock.value < |s.pr|) && d < |s.cpu| && k < |s.pr|
    requires CanSched(s, d, k, e)
    ensures var s' := DoSched(s, d, k, e); |s'.pr| == |s.pr| && |s'.cpu| == |s.cpu| && (s'.waitLock.Some? ==>
            s'.waitLock.value < |s.pr|)
  {
  }

  /** What every step of every process and CPU keeps. */
  lemma StepInv(s: State, s': State)
    requires s.Inv() && StepTo(s, s')
    ensures s'.Inv()
  {
    hide State.Inv, CanFork, CanExit, CanWait, CanYield, CanSched, DoFork, DoExit, DoWait, DoYield, DoSched;
    if p: nat, e: ForkStep :| p < |s.pr| && s.pr[p].at.Some? && CanFork(s, p, e) && s' == DoFork(s, p, e) {
      ForkInv(s, p, e);
    } else if p: nat, e: ExitStep :| p < |s.pr| && s.pr[p].at.Some? && CanExit(s, p, e) && s' == DoExit(s, p, e) {
      ExitInv(s, p, e);
    } else if p: nat, e: WaitStep :| p < |s.pr| && s.pr[p].at.Some? && CanWait(s, p, e) && s' == DoWait(s, p, e) {
      WaitInv(s, p, e);
    } else if p: nat, e: YieldStep :| p < |s.pr| && s.pr[p].at.Some? && CanYield(s, p, e) && s' == DoYield(s, p, e) {
      YieldInv(s, p, e);
    } else {
      var c: nat, k: nat, e: SchedStep :|
        c < |s.cpu| && k < |s.pr| && CanSched(s, c, k, e) && s' == DoSched(s, c, k, e);
      SchedInv(s, c, k, e);
    }
  }

  /** After userinit: only initproc, ready to run. */
  ghost predicate Init(s: State) {
    && s.Shape() && s.waitLock == None
    && (forall p: nat | p < |s.pr| :: s.pr[p] == Process(Start, if p == 0 then Runnable
      else Unused, None, false, None, None, None, 0, 0))
    && (forall c: nat | c < |s.cpu| :: s.cpu[c] == Idle)
  }

  lemma InitInv(s: State)
    requires Init(s)
    ensures s.Inv()
  {
    assert s.pr[0].pc == Start;
  }

  ghost predicate Linked(run: seq<State>, i: nat)
    requires i + 1 < |run|
  {
    StepTo(run[i], run[i + 1])
  }

  /** A run of any length, of any number of processes and CPUs, in any interleaving. */
  ghost predicate IsRun(run: seq<State>) {
    run != [] && Init(run[0]) && forall i: nat | i + 1 < |run| :: Linked(run, i)
  }

  lemma {:induction false} RunInv(run: seq<State>, i: nat)
    requires IsRun(run) && i < |run|
    ensures run[i].Inv()
  {
    hide State.Inv, Init, StepTo;
    if i == 0 {
      InitInv(run[0]);
    } else {
      RunInv(run, i - 1);
      assert Linked(run, i - 1);
      StepInv(run[i - 1], run[i]);
    }
  }

  /** In every run: whenever wait_lock is free, no process sleeps in wait while it has a zombie child. */
  lemma NoLostExit(run: seq<State>, i: nat, p: nat, j: nat)
    requires IsRun(run) && i < |run| && p < |run[i].pr| && j < |run[i].pr| && run[i].waitLock == None
    ensures var s := run[i].pr; !(s[p].st == Sleeping && s[p].inWait && s[j].parent == Some(p) && s[j].st == Zombie)
  {
    RunInv(run, i);
    assert run[i].NoLost(p, j) && run[i].StOk(p);
  }

  /** In every run: a parent is a live process. */
  lemma ParentsLive(run: seq<State>, i: nat, j: nat)
    requires IsRun(run) && i < |run| && j < |run[i].pr| && run[i].pr[j].parent.Some?
    ensures var q := run[i].pr[j].parent.value; q < |run[i].pr| && q != j && Alive(run[i].pr[q].st)
  {
    RunInv(run, i);
    assert run[i].ParentOk(j);
  }

  /** In every run: wait reaps only a zombie that no CPU's kernel stack belongs to. */
  lemma ReapedOffStack(run: seq<State>, i: nat, p: nat, c: nat)
    requires IsRun(run) && i < |run| && p < |run[i].pr| && run[i].Shape() && CanWait(run[i], p, Reap)
    requires c < |run[i].cpu|
    ensures run[i].cpu[c] != Ran(run[i].pr[p].pc.k)
    ensures DoWait(run[i], p, Reap).pr[run[i].pr[p].pc.k].st == Unused
  {
    RunInv(run, i);
    var s, k := run[i], run[i].pr[p].pc.k;
    assert s.AtOk(k, c) && s.StOk(k) && s.PlockOk(k, p) && s.PlockOk(k, k) && s.ExitOk(p);
  }

  /** In every run: when p->lock is free, p is RUNNING exactly when a CPU has it as current, and then
      only one has. */
  lemma RunningIsCurrent(run: seq<State>, i: nat, p: nat)
    requires IsRun(run) && i < |run| && p < |run[i].pr| && run[i].pr[p].plock == None
    ensures run[i].pr[p].st == Running <==> exists c: nat :: c < |run[i].cpu| && run[i].cpu[c] == Ran(p)
    ensures forall c: nat, d: nat | c < |run[i].cpu| && d < |run[i].cpu| && run[i].cpu[c] == Ran(p)
            && run[i].cpu[d] == Ran(p) :: c == d
  {
    RunInv(run, i);
    var s := run[i];
    assert s.StOk(p) && s.PlockOk(p, p);
    if s.pr[p].at.Some? { assert s.AtOk(p, s.pr[p].at.value); }
    forall c: nat | c < |s.cpu| && s.cpu[c] == Ran(p) ensures s.pr[p].at == Some(c) { assert s.AtOk(p, c); }
  }
}
