/** Whose child a process is, and the states it goes through: what fork, exit, wait, yield and the scheduler
    (kernel/proc.c) do to `parent` and `state` in every run. */
module Children {
  import opened Basics
  import opened ExitWait

  ghost predicate ChildOf(s: State, j: nat, p: nat) { j < |s.pr| && s.pr[j].parent == Some(p) }

  /** fork has set the child's parent (kernel/proc.c:328). */
  predicate Parented(pc: Pc) { pc.FLock? || pc.FRun? }

  /** A slot in use has a parent, but init; one that fork is filling has its maker, from when fork has set it. */
  ghost predicate BornOk(s: State, k: nat)
    requires k < |s.pr|
  {
    var it := s.pr[k];
    && (it.st == Unused ==> it.parent == None)
    && (it.st == Used && it.maker.Some? && it.maker.value < |s.pr| ==>
        it.parent == if Parented(s.pr[it.maker.value].pc) then it.maker else None)
    && (k != 0 && it.st != Unused && it.st != Used ==> it.parent.Some?)
  }

  /** wait looks only at children. */
  ghost predicate LookOk(s: State, p: nat)
    requires p < |s.pr|
  {
    s.pr[p].pc.Look? ==> ChildOf(s, s.pr[p].pc.k, p)
  }

  /** One of the first `n` slots is a child. */
  ghost predicate Kids(s: State, p: nat, n: nat) { exists j: nat :: j < n && ChildOf(s, j, p) }

  /** wait's havekids. */
  ghost predicate KidsOk(s: State, p: nat)
    requires p < |s.pr|
  {
    var pc := s.pr[p].pc;
    pc.Scan? || pc.Look? ==> (pc.kids <==> Kids(s, p, pc.k))
  }

  ghost predicate Family(s: State) {
    && (forall k: nat | k < |s.pr| :: BornOk(s, k))
    && (forall p: nat | p < |s.pr| :: LookOk(s, p))
    && (forall p: nat | p < |s.pr| :: KidsOk(s, p))
  }

  /** What the maker of slot `x`, if it has one, knows. */
  ghost predicate MadeOk(s: State, x: nat)
    requires s.Shape() && x < |s.pr|
  {
    s.UsedOk(x) && s.StOk(x) && (s.pr[x].maker.Some? ==>
        s.pr[x].maker.value < |s.pr| && s.StOk(s.pr[x].maker.value) && s.MakerOk(x, s.pr[x].maker.value))
  }

  lemma InvMade(s: State, x: nat)
    requires s.Inv() && x < |s.pr|
    ensures MadeOk(s, x)
  {
    hide State.StOk, State.MakerOk;
    assert s.UsedOk(x) && s.StOk(x);
    if s.pr[x].maker.Some? { assert s.StOk(s.pr[x].maker.value) && s.MakerOk(x, s.pr[x].maker.value); }
  }

  lemma ForkBorn(s: State, p: nat, e: ForkStep, x: nat)
    requires s.Shape() && Runs(s, p) && CanFork(s, p, e) && x < |s.pr|
    requires BornOk(s, x) && MadeOk(s, x) && s.MakerOk(x, p) && s.StOk(p) && s.ExitOk(p)
    ensures x < |DoFork(s, p, e).pr| && BornOk(DoFork(s, p, e), x)
  {
    hide HasWait, HasPlock, Sweeps, Woke, Swept, Scanned, Exiting, OnCpu, Alive;
  }

  lemma ExitBorn(s: State, p: nat, e: ExitStep, x: nat)
    requires s.Shape() && Runs(s, p) && CanExit(s, p, e) && x < |s.pr|
    requires BornOk(s, x) && MadeOk(s, x) && s.MakerOk(x, p) && s.StOk(p) && s.ExitOk(p)
    ensures x < |DoExit(s, p, e).pr| && BornOk(DoExit(s, p, e), x)
  {
    hide HasWait, HasPlock, Sweeps, Woke, Swept, Scanned, Exiting, Alive;
    var c, s' := ExitChange(s, p, e), DoExit(s, p, e);
    assert s'.pr[x] == if x == p then c.me else if x == c.k then c.it else s.pr[x];
  }

  lemma WaitBorn(s: State, p: nat, e: WaitStep, x: nat)
    requires s.Shape() && Runs(s, p) && CanWait(s, p, e) && x < |s.pr|
    requires BornOk(s, x) && MadeOk(s, x) && s.MakerOk(x, p) && s.StOk(p) && s.ExitOk(p)
    ensures x < |DoWait(s, p, e).pr| && BornOk(DoWait(s, p, e), x)
  {
    hide HasWait, HasPlock, Sweeps, Woke, Swept, Scanned, Exiting, Alive;
    var c, s' := WaitChange(s, p, e), DoWait(s, p, e);
    assert s'.pr[x] == if x == p then c.me else if x == c.k then c.it else s.pr[x];
  }

  lemma YieldBorn(s: State, p: nat, e: YieldStep, x: nat)
    requires s.Shape() && Runs(s, p) && CanYield(s, p, e) && x < |s.pr|
    requires BornOk(s, x) && MadeOk(s, x) && s.MakerOk(x, p) && s.StOk(p)
    ensures x < |DoYield(s, p, e).pr| && BornOk(DoYield(s, p, e), x)
  {
    hide HasWait, HasPlock, Sweeps, Woke, Swept, Scanned, Exiting, Alive;
  }

  lemma SchedBorn(s: State, c: nat, k: nat, e: SchedStep, x: nat)
    requires s.Shape() && c < |s.cpu| && k < |s.pr| && CanSched(s, c, k, e) && x < |s.pr| && BornOk(s, x)
    ensures x < |DoSched(s, c, k, e).pr| && BornOk(DoSched(s, c, k, e), x)
  {
  }

  /** Outside of wait_lock nobody's parent changes. */
  lemma ForkParents(s: State, p: nat, e: ForkStep, x: nat)
    requires s.Shape() && Runs(s, p) && CanFork(s, p, e) && x < |s.pr|
    requires BornOk(s, x) && MadeOk(s, x) && s.MakerOk(x, p) && s.StOk(p) && s.ExitOk(p)
    ensures var s' := DoFork(s, p, e);
            && |s'.pr| == |s.pr|
            && s'.pr[x].parent == (if e == SetParent && x == s.pr[p].pc.k then Some(p) else s.pr[x].parent)
            && (x != p && s'.pr[x].pc != s.pr[x].pc ==> s'.pr[x].pc == Start)
            && !s'.pr[p].pc.Look? && !s'.pr[p].pc.Scan?
  {
    hide HasWait, HasPlock, Sweeps, Woke, Swept, Scanned, Exiting, OnCpu, Alive;
  }

  lemma ExitParents(s: State, p: nat, e: ExitStep, x: nat)
    requires s.Shape() && Runs(s, p) && CanExit(s, p, e) && x < |s.pr| && s.ExitOk(p) && s.ParentOk(x)
    ensures var s' := DoExit(s, p, e);
            && |s'.pr| == |s.pr|
            && s'.pr[x].parent ==
               (if s.pr[p].pc == ERep(x) && s.pr[x].parent == Some(p) then Some(0) else s.pr[x].parent)
            && (x != p ==> s'.pr[x].pc == s.pr[x].pc) && !s'.pr[p].pc.Look? && !s'.pr[p].pc.Scan?
  {
    hide HasWait, HasPlock, Sweeps, Woke, Swept, Scanned, OnCpu, Alive;
  }

  lemma WaitParents(s: State, p: nat, e: WaitStep, x: nat)
    requires s.Shape() && Runs(s, p) && CanWait(s, p, e) && x < |s.pr| && s.ExitOk(p)
    ensures var s' := DoWait(s, p, e);
            && |s'.pr| == |s.pr|
            && s'.pr[x].parent == (if e == Reap && s.pr[p].pc.k == x then None else s.pr[x].parent)
            && (x != p ==> s'.pr[x].pc == s.pr[x].pc)
  {
    hide HasWait, HasPlock, Sweeps, Woke, Swept, Scanned, OnCpu, Alive;
  }

  lemma YieldParents(s: State, p: nat, e: YieldStep, x: nat)
    requires s.Shape() && Runs(s, p) && CanYield(s, p, e) && x < |s.pr|
    ensures var s' := DoYield(s, p, e);
            && |s'.pr| == |s.pr| && s'.pr[x].parent == s.pr[x].parent
            && (x != p ==> s'.pr[x].pc == s.pr[x].pc) && !s'.pr[p].pc.Look? && !s'.pr[p].pc.Scan?
  {
  }

  lemma SchedParents(s: State, c: nat, k: nat, e: SchedStep, x: nat)
    requires s.Shape() && c < |s.cpu| && k < |s.pr| && CanSched(s, c, k, e) && x < |s.pr|
    ensures var s' := DoSched(s, c, k, e);
            |s'.pr| == |s.pr| && s'.pr[x].parent == s.pr[x].parent && s'.pr[x].pc == s.pr[x].pc
  {
  }

  ghost predicate SameChildren(s: State, s': State) {
    |s'.pr| == |s.pr| && forall x: nat | x < |s.pr| :: SameParent(s, s', x)
  }

  ghost predicate SameParent(s: State, s': State, x: nat)
    requires x < |s.pr| && x < |s'.pr|
  {
    s'.pr[x].parent == s.pr[x].parent
  }

  /** A process whose place did not change, while no parent did. */
  lemma StayOk(s: State, s': State, p: nat)
    requires SameChildren(s, s') && p < |s.pr| && s'.pr[p].pc == s.pr[p].pc && LookOk(s, p) && KidsOk(s, p)
    ensures LookOk(s', p) && KidsOk(s', p)
  {
    var pc := s.pr[p].pc;
    if pc.Look? { assert SameParent(s, s', pc.k); }
    if pc.Look? || pc.Scan? { SameKids(s, s', p, pc.k); }
  }

  lemma SameKids(s: State, s': State, p: nat, n: nat)
    requires SameChildren(s, s')
    ensures Kids(s', p, n) <==> Kids(s, p, n)
  {
    forall j: nat ensures ChildOf(s', j, p) <==> ChildOf(s, j, p) {
      if j < |s.pr| { assert SameParent(s, s', j); }
    }
  }

  /** Whoever changes a parent holds wait_lock, so nobody else is in wait's scan. */
  lemma LockedOut(s: State, p: nat, q: nat)
    requires s.Shape() && p < |s.pr| && q < |s.pr| && p != q && s.WaitOk(p) && s.WaitOk(q) && HasWait(s.pr[p].pc)
    ensures !s.pr[q].pc.Look? && !s.pr[q].pc.Scan?
  {
  }

  ghost predicate StepOk(s: State, s': State) { |s'.pr| == |s.pr| && Family(s') }

  lemma ForkFamily(s: State, p: nat, e: ForkStep)
    requires s.Inv() && Family(s) && Runs(s, p) && CanFork(s, p, e)
    ensures StepOk(s, DoFork(s, p, e))
  {
    hide State.StOk, State.MakerOk, State.ExitOk, State.WaitOk, State.UsedOk, DoFork, BornOk, MadeOk;
    var s' := DoFork(s, p, e);
    assert s.MakerOk(p, p) && s.StOk(p) && s.ExitOk(p) && s.WaitOk(p);
    forall x: nat | x < |s.pr| ensures |s'.pr| == |s.pr| && BornOk(s', x)
      ensures s'.pr[x].parent == if e == SetParent && x == s.pr[p].pc.k then Some(p) else s.pr[x].parent
      ensures x != p && s'.pr[x].pc != s.pr[x].pc ==> s'.pr[x].pc == Start
    {
      assert s.MakerOk(x, p) && BornOk(s, x);
      InvMade(s, x);
      ForkBorn(s, p, e, x);
      ForkParents(s, p, e, x);
    }
    assert BornOk(s, p);
    InvMade(s, p);
    ForkParents(s, p, e, p);
    forall q: nat | q < |s.pr| ensures LookOk(s', q) && KidsOk(s', q) {
      if q != p && s'.pr[q].pc == s.pr[q].pc {
        assert s.WaitOk(q) && LookOk(s, q) && KidsOk(s, q);
        if e == SetParent {
          LockedOut(s, p, q);
        } else {
          assert SameChildren(s, s');
          StayOk(s, s', q);
        }
      }
    }
  }

  lemma ExitFamily(s: State, p: nat, e: ExitStep)
    requires s.Inv() && Family(s) && Runs(s, p) && CanExit(s, p, e)
    ensures StepOk(s, DoExit(s, p, e))
  {
    hide State.StOk, State.MakerOk, State.ExitOk, State.WaitOk, State.UsedOk, DoExit, BornOk, MadeOk;
    var s' := DoExit(s, p, e);
    assert s.StOk(p) && s.ExitOk(p) && s.WaitOk(p);
    forall x: nat | x < |s.pr| ensures |s'.pr| == |s.pr| && BornOk(s', x)
      ensures s'.pr[x].parent ==
              (if s.pr[p].pc == ERep(x) && s.pr[x].parent == Some(p) then Some(0) else s.pr[x].parent)
      ensures x != p ==> s'.pr[x].pc == s.pr[x].pc
    {
      assert s.MakerOk(x, p) && BornOk(s, x) && s.ParentOk(x);
      InvMade(s, x);
      ExitBorn(s, p, e, x);
      ExitParents(s, p, e, x);
    }
    assert s.ParentOk(p);
    ExitParents(s, p, e, p);
    forall q: nat | q < |s.pr| ensures LookOk(s', q) && KidsOk(s', q) {
      if q != p {
        assert s.WaitOk(q) && LookOk(s, q) && KidsOk(s, q);
        if s.pr[p].pc.ERep? {
          LockedOut(s, p, q);
        } else {
          assert SameChildren(s, s');
          StayOk(s, s', q);
        }
      }
    }
  }

  lemma WaitFamily(s: State, p: nat, e: WaitStep)
    requires s.Inv() && Family(s) && Runs(s, p) && CanWait(s, p, e)
    ensures StepOk(s, DoWait(s, p, e))
  {
    hide State.StOk, State.MakerOk, State.ExitOk, State.WaitOk, State.UsedOk, DoWait, BornOk, MadeOk;
    var s' := DoWait(s, p, e);
    assert s.StOk(p) && s.ExitOk(p) && s.WaitOk(p);
    forall x: nat | x < |s.pr| ensures |s'.pr| == |s.pr| && BornOk(s', x)
      ensures s'.pr[x].parent == (if e == Reap && s.pr[p].pc.k == x then None else s.pr[x].parent)
      ensures x != p ==> s'.pr[x].pc == s.pr[x].pc
    {
      assert s.MakerOk(x, p) && BornOk(s, x);
      InvMade(s, x);
      WaitBorn(s, p, e, x);
      WaitParents(s, p, e, x);
    }
    forall q: nat | q < |s.pr| ensures LookOk(s', q) && KidsOk(s', q) {
      assert LookOk(s, q) && KidsOk(s, q);
      if q == p {
        WaiterOk(s, p, e);
      } else if e == Reap {
        assert s.WaitOk(q);
        LockedOut(s, p, q);
      } else {
        assert SameChildren(s, s');
        StayOk(s, s', q);
      }
    }
  }

  /** The scan itself. */
  lemma WaiterOk(s: State, p: nat, e: WaitStep)
    requires s.Shape() && Runs(s, p) && CanWait(s, p, e) && s.ExitOk(p) && LookOk(s, p) && KidsOk(s, p)
    ensures var s' := DoWait(s, p, e); |s'.pr| == |s.pr| && LookOk(s', p) && KidsOk(s', p)
  {
    var s', pc := DoWait(s, p, e), s.pr[p].pc;
    if e != Reap {
      forall x: nat | x < |s.pr| ensures SameParent(s, s', x) { WaitParents(s, p, e, x); }
      if pc.Scan? || pc.Look? {
        SameKids(s, s', p, pc.k);
        OneMoreKid(s', p, pc.k);
      }
    }
  }

  lemma OneMoreKid(s: State, p: nat, k: nat)
    ensures Kids(s, p, k + 1) <==> Kids(s, p, k) || ChildOf(s, k, p)
  {
    if Kids(s, p, k + 1) {
      var j: nat :| j < k + 1 && ChildOf(s, j, p);
      assert j < k ==> Kids(s, p, k);
    }
  }

  lemma YieldFamily(s: State, p: nat, e: YieldStep)
    requires s.Inv() && Family(s) && Runs(s, p) && CanYield(s, p, e)
    ensures StepOk(s, DoYield(s, p, e))
  {
    hide State.StOk, State.MakerOk, State.UsedOk, DoYield, BornOk, MadeOk;
    var s' := DoYield(s, p, e);
    assert s.StOk(p);
    forall x: nat | x < |s.pr| ensures |s'.pr| == |s.pr| && BornOk(s', x) && SameParent(s, s', x)
      ensures x != p ==> s'.pr[x].pc == s.pr[x].pc
    {
      assert s.MakerOk(x, p) && BornOk(s, x);
      InvMade(s, x);
      YieldBorn(s, p, e, x);
      YieldParents(s, p, e, x);
    }
    YieldParents(s, p, e, p);
    forall q: nat | q < |s.pr| ensures LookOk(s', q) && KidsOk(s', q) {
      if q != p {
        assert LookOk(s, q) && KidsOk(s, q);
        StayOk(s, s', q);
      }
    }
  }

  lemma SchedFamily(s: State, c: nat, k: nat, e: SchedStep)
    requires s.Inv() && Family(s) && c < |s.cpu| && k < |s.pr| && CanSched(s, c, k, e)
    ensures StepOk(s, DoSched(s, c, k, e))
  {
    hide State.Inv, DoSched, BornOk;
    InvShape(s);
    var s' := DoSched(s, c, k, e);
    SchedParents(s, c, k, e, k);
    forall x: nat | x < |s.pr| ensures |s'.pr| == |s.pr| && BornOk(s', x) && SameParent(s, s', x)
      ensures s'.pr[x].pc == s.pr[x].pc
    {
      assert BornOk(s, x);
      SchedBorn(s, c, k, e, x);
      SchedParents(s, c, k, e, x);
    }
    forall q: nat | q < |s.pr| ensures LookOk(s', q) && KidsOk(s', q) {
      assert LookOk(s, q) && KidsOk(s, q);
      StayOk(s, s', q);
    }
  }

  lemma InvShape(s: State)
    requires s.Inv()
    ensures s.Shape()
  {
  }

  lemma FamilyStep(s: State, s': State)
    requires s.Inv() && Family(s) && StepTo(s, s')
    ensures StepOk(s, s')
  {
    hide State.Inv, Family, CanFork, CanExit, CanWait, CanYield, CanSched, DoFork, DoExit, DoWait, DoYield, DoSched;
    if p: nat, e: ForkStep :| Runs(s, p) && CanFork(s, p, e) && s' == DoFork(s, p, e) {
      ForkFamily(s, p, e);
    } else if p: nat, e: ExitStep :| Runs(s, p) && CanExit(s, p, e) && s' == DoExit(s, p, e) {
      ExitFamily(s, p, e);
    } else if p: nat, e: WaitStep :| Runs(s, p) && CanWait(s, p, e) && s' == DoWait(s, p, e) {
      WaitFamily(s, p, e);
    } else if p: nat, e: YieldStep :| Runs(s, p) && CanYield(s, p, e) && s' == DoYield(s, p, e) {
      YieldFamily(s, p, e);
    } else {
      var c: nat, k: nat, e: SchedStep :|
        c < |s.cpu| && k < |s.pr| && CanSched(s, c, k, e) && s' == DoSched(s, c, k, e);
      SchedFamily(s, c, k, e);
    }
  }

  lemma InitFamily(s: State)
    requires Init(s)
    ensures Family(s)
  {
    forall p: nat | p < |s.pr| ensures BornOk(s, p) && LookOk(s, p) && KidsOk(s, p) { assert s.pr[p].pc == Start; }
  }

  lemma {:induction false} RunFamily(run: seq<State>, i: nat)
    requires IsRun(run) && i < |run|
    ensures Family(run[i]) && |run[i].pr| == |run[0].pr|
  {
    hide State.Inv, Init, StepTo, Family;
    if i == 0 {
      InitFamily(run[0]);
    } else {
      RunFamily(run, i - 1);
      RunInv(run, i - 1);
      assert Linked(run, i - 1);
      FamilyStep(run[i - 1], run[i]);
      StepOkIs(run[i - 1], run[i]);
    }
  }

  lemma StepOkIs(s: State, s': State)
    requires StepOk(s, s')
    ensures |s'.pr| == |s.pr| && Family(s')
  {
  }

  /** In every run: once fork has released wait_lock, the process it makes is its child. */
  lemma ForkedChild(run: seq<State>, i: nat, p: nat)
    requires IsRun(run) && i < |run| && p < |run[i].pr| && (run[i].pr[p].pc.FLock? || run[i].pr[p].pc.FRun?)
    ensures var k := run[i].pr[p].pc.k; k < |run[i].pr| && run[i].pr[k].parent == Some(p) && run[i].pr[k].st == Used
  {
    RunFamily(run, i);
    RunInv(run, i);
    var s, k := run[i], run[i].pr[p].pc.k;
    assert s.ExitOk(p) && s.MakerOk(k, p) && s.UsedOk(k) && BornOk(s, k);
  }

  /** In every run: a process that runs, waits to run, sleeps or is a zombie has a parent, but init. */
  lemma HasParent(run: seq<State>, i: nat, k: nat)
    requires IsRun(run) && i < |run| && 0 < k < |run[i].pr|
    requires run[i].pr[k].st != Unused && run[i].pr[k].st != Used
    ensures run[i].pr[k].parent.Some?
  {
    RunFamily(run, i);
    assert BornOk(run[i], k);
  }

  /** How the parent of slot `k` may change: fork sets it, the parent's exit gives it to init, the parent's wait
      clears it with the zombie. */
  ghost predicate ParentMoves(s: State, s': State, k: nat)
    requires k < |s.pr| && k < |s'.pr|
  {
    || (s'.pr[k].parent == s.pr[k].parent)
    || (s.pr[k].parent == None && s'.pr[k].parent.Some? && ForksTo(s, s', k, s'.pr[k].parent.value))
    || (s.pr[k].parent.Some? && s'.pr[k].parent == Some(0) && ExitsAt(s, k, s.pr[k].parent.value))
    || (s.pr[k].parent.Some? && s'.pr[k].parent == None && Reaps(s, s', k, s.pr[k].parent.value))
  }

  ghost predicate ForksTo(s: State, s': State, k: nat, p: nat) {
    p < |s.pr| && p < |s'.pr| && s.pr[p].pc == FSet(k) && s'.pr[p].pc == FLock(k)
  }

  ghost predicate ExitsAt(s: State, k: nat, p: nat) { p < |s.pr| && s.pr[p].pc == ERep(k) }

  ghost predicate Reaps(s: State, s': State, k: nat, p: nat)
    requires k < |s.pr| && k < |s'.pr|
  {
    p < |s.pr| && s.pr[p].pc.Look? && s.pr[p].pc.k == k && s.pr[k].st == Zombie && s'.pr[k].st == Unused
  }

  lemma ForkMoves(s: State, p: nat, e: ForkStep, k: nat)
    requires s.Inv() && Family(s) && Runs(s, p) && CanFork(s, p, e) && k < |s.pr|
    ensures k < |DoFork(s, p, e).pr| && ParentMoves(s, DoFork(s, p, e), k)
  {
    hide HasWait, HasPlock, Sweeps, Woke, Swept, Scanned, Exiting, Alive;
    assert s.MakerOk(k, p) && s.StOk(p) && s.ExitOk(p) && BornOk(s, k) && s.UsedOk(k);
    hide State.Inv, Family;
  }

  lemma ExitMoves(s: State, p: nat, e: ExitStep, k: nat)
    requires s.Inv() && Family(s) && Runs(s, p) && CanExit(s, p, e) && k < |s.pr|
    ensures k < |DoExit(s, p, e).pr| && ParentMoves(s, DoExit(s, p, e), k)
  {
    hide DoExit;
    assert s.ExitOk(p) && s.ParentOk(k);
    hide State.Inv, Family;
    ExitParents(s, p, e, k);
  }

  lemma WaitMoves(s: State, p: nat, e: WaitStep, k: nat)
    requires s.Inv() && Family(s) && Runs(s, p) && CanWait(s, p, e) && k < |s.pr|
    ensures k < |DoWait(s, p, e).pr| && ParentMoves(s, DoWait(s, p, e), k)
  {
    assert s.ExitOk(p) && LookOk(s, p);
    hide State.Inv, Family;
    WaitParents(s, p, e, k);
  }

  lemma StepMoves(s: State, s': State, k: nat)
    requires s.Inv() && Family(s) && StepTo(s, s') && k < |s.pr|
    ensures k < |s'.pr| && ParentMoves(s, s', k)
  {
    hide State.Inv, Family, CanFork, CanExit, CanWait, CanYield, CanSched, DoFork, DoExit, DoWait, DoYield, DoSched;
    if p: nat, e: ForkStep :| Runs(s, p) && CanFork(s, p, e) && s' == DoFork(s, p, e) {
      ForkMoves(s, p, e, k);
    } else if p: nat, e: ExitStep :| Runs(s, p) && CanExit(s, p, e) && s' == DoExit(s, p, e) {
      ExitMoves(s, p, e, k);
    } else if p: nat, e: WaitStep :| Runs(s, p) && CanWait(s, p, e) && s' == DoWait(s, p, e) {
      WaitMoves(s, p, e, k);
    } else if p: nat, e: YieldStep :| Runs(s, p) && CanYield(s, p, e) && s' == DoYield(s, p, e) {
      YieldParents(s, p, e, k);
    } else {
      var c: nat, d: nat, e: SchedStep :|
        c < |s.cpu| && d < |s.pr| && CanSched(s, c, d, e) && s' == DoSched(s, c, d, e);
      SchedParents(s, c, d, e, k);
    }
  }

  lemma SameProcs(s: State, s': State)
    requires StepTo(s, s')
    ensures |s'.pr| == |s.pr|
  {
    hide CanFork, CanExit, CanWait, CanYield, CanSched, ForkChange, ExitChange, WaitChange, Yielded;
  }

  lemma StaysOnce(s: State, s': State, p: nat, k: nat)
    requires s.Inv() && Family(s) && StepTo(s, s') && ChildOf(s, k, p)
    requires p < |s.pr| && !InvolvedWith(s.pr[p].pc, k)
    ensures |s'.pr| == |s.pr| && ChildOf(s', k, p)
  {
    hide State.Inv, Family, StepTo;
    SameProcs(s, s');
    StepMoves(s, s', k);
  }

  /** In every run: a child stays its parent's until the parent exits or reaps it. */
  lemma {:induction false} ChildStays(run: seq<State>, i: nat, j: nat, p: nat, k: nat)
    requires IsRun(run) && i <= j < |run| && ChildOf(run[i], k, p) && p < |run[i].pr|
    requires forall m: nat | i <= m < j :: p < |run[m].pr| && !InvolvedWith(run[m].pr[p].pc, k)
    ensures ChildOf(run[j], k, p)
    decreases j - i
  {
    if i < j {
      hide State.Inv, Init, StepTo, Family;
      RunInv(run, i);
      RunFamily(run, i);
      RunFamily(run, i + 1);
      assert Linked(run, i) && !InvolvedWith(run[i].pr[p].pc, k);
      StaysOnce(run[i], run[i + 1], p, k);
      assert p < |run[i + 1].pr|;
      ChildStays(run, i + 1, j, p, k);
    }
  }

  /** The process is giving child `k` to init, or is at it in wait. */
  predicate InvolvedWith(pc: Pc, k: nat) { (pc.ERep? || pc.Look?) && pc.k == k }

  /** In every run: wait takes the lock of a child only. */
  lemma LooksAtChild(run: seq<State>, i: nat, p: nat)
    requires IsRun(run) && i < |run| && p < |run[i].pr| && run[i].pr[p].pc.Look?
    ensures ChildOf(run[i], run[i].pr[p].pc.k, p)
  {
    RunFamily(run, i);
    assert LookOk(run[i], p);
  }

  /** In every run: at the end of its scan wait knows exactly whether the process has a child. Without one it can
      only give up, and it goes to sleep only with one. */
  lemma ScanEnds(run: seq<State>, i: nat, p: nat)
    requires IsRun(run) && i < |run| && p < |run[i].pr| && run[i].Shape()
    requires run[i].pr[p].pc.Scan? && run[i].pr[p].pc.k >= |run[i].pr|
    ensures run[i].pr[p].pc.kids <==> exists j: nat :: ChildOf(run[i], j, p)
    ensures CanWait(run[i], p, More) <==> exists j: nat :: ChildOf(run[i], j, p)
  {
    RunFamily(run, i);
    assert KidsOk(run[i], p);
  }

  /** How the state of a process may change (kernel/proc.h:83). */
  predicate Life(st: ProcState, st': ProcState) {
    || st' == st
    || (st == Unused && st' == Used) || (st == Used && (st' == Runnable || st' == Unused))
    || (st == Runnable && st' == Running) || (st == Running && (st' == Runnable || st' == Sleeping || st' == Zombie))
    || (st == Sleeping && st' == Runnable) || (st == Zombie && st' == Unused)
  }

  /** What a step does to the state of process `x`, and to the CPU on its kernel stack. */
  ghost predicate LifeStep(s: State, s': State, x: nat)
    requires x < |s.pr| && x < |s'.pr|
  {
    && Life(s.pr[x].st, s'.pr[x].st)
    && (s.pr[x].at == None && s'.pr[x].at.Some? ==> s.pr[x].st == Runnable && s'.pr[x].st == Running)
    && (s.pr[x].at.Some? && s'.pr[x].at == None ==> s.pr[x].st != Running)
    && (s.pr[x].st == Zombie && s'.pr[x].st == Unused ==> s.pr[x].at == None)
  }

  lemma ForkLife(s: State, p: nat, e: ForkStep, x: nat)
    requires s.Shape() && Runs(s, p) && CanFork(s, p, e) && x < |s.pr|
    requires MadeOk(s, x) && s.MakerOk(x, p) && s.StOk(p) && s.ExitOk(p)
    ensures x < |DoFork(s, p, e).pr| && LifeStep(s, DoFork(s, p, e), x)
  {
    hide HasWait, HasPlock, Sweeps, Woke, Swept, Scanned, Exiting, OnCpu, Alive;
  }

  lemma ExitLife(s: State, p: nat, e: ExitStep, x: nat)
    requires s.Shape() && Runs(s, p) && CanExit(s, p, e) && x < |s.pr| && s.StOk(p) && s.ExitOk(p)
    ensures x < |DoExit(s, p, e).pr| && LifeStep(s, DoExit(s, p, e), x)
  {
    hide HasWait, HasPlock, Sweeps, Woke, Swept, Scanned, Alive;
  }

  lemma WaitLife(s: State, p: nat, e: WaitStep, x: nat)
    requires s.Shape() && Runs(s, p) && CanWait(s, p, e) && x < |s.pr| && s.StOk(p) && s.ExitOk(p)
    requires s.StOk(x) && s.PlockOk(x, p) && s.PlockOk(x, x)
    ensures x < |DoWait(s, p, e).pr| && LifeStep(s, DoWait(s, p, e), x)
  {
    hide HasWait, Sweeps, Woke, Swept, Scanned, Exiting, Alive;
    var c, s' := WaitChange(s, p, e), DoWait(s, p, e);
    assert s'.pr[x] == if x == p then c.me else if x == c.k then c.it else s.pr[x];
  }

  lemma YieldLife(s: State, p: nat, e: YieldStep, x: nat)
    requires s.Shape() && Runs(s, p) && CanYield(s, p, e) && x < |s.pr| && s.StOk(p)
    ensures x < |DoYield(s, p, e).pr| && LifeStep(s, DoYield(s, p, e), x)
    ensures e == YieldSet(false) ==> DoYield(s, p, e).pr[p].st == Runnable
  {
    hide HasWait, HasPlock, Sweeps, Woke, Swept, Scanned, Exiting, Alive;
  }

  lemma SchedLife(s: State, c: nat, k: nat, e: SchedStep, x: nat)
    requires s.Shape() && c < |s.cpu| && k < |s.pr| && CanSched(s, c, k, e) && x < |s.pr|
    ensures x < |DoSched(s, c, k, e).pr| && LifeStep(s, DoSched(s, c, k, e), x)
  {
  }

  lemma StepLife(s: State, s': State, x: nat)
    requires s.Inv() && StepTo(s, s') && x < |s.pr|
    ensures x < |s'.pr| && LifeStep(s, s', x)
  {
    hide CanFork, CanExit, CanWait, CanYield, CanSched, DoFork, DoExit, DoWait, DoYield, DoSched, LifeStep;
    hide State.StOk, State.MakerOk, State.ExitOk, State.PlockOk, State.UsedOk;
    assert s.StOk(x) && s.PlockOk(x, x);
    InvMade(s, x);
    if p: nat, e: ForkStep :| Runs(s, p) && CanFork(s, p, e) && s' == DoFork(s, p, e) {
      assert s.MakerOk(x, p) && s.StOk(p) && s.ExitOk(p);
      ForkLife(s, p, e, x);
    } else if p: nat, e: ExitStep :| Runs(s, p) && CanExit(s, p, e) && s' == DoExit(s, p, e) {
      assert s.StOk(p) && s.ExitOk(p);
      ExitLife(s, p, e, x);
    } else if p: nat, e: WaitStep :| Runs(s, p) && CanWait(s, p, e) && s' == DoWait(s, p, e) {
      assert s.StOk(p) && s.ExitOk(p) && s.PlockOk(x, p);
      WaitLife(s, p, e, x);
    } else if p: nat, e: YieldStep :| Runs(s, p) && CanYield(s, p, e) && s' == DoYield(s, p, e) {
      assert s.StOk(p);
      YieldLife(s, p, e, x);
    } else {
      var c: nat, k: nat, e: SchedStep :|
        c < |s.cpu| && k < |s.pr| && CanSched(s, c, k, e) && s' == DoSched(s, c, k, e);
      SchedLife(s, c, k, e, x);
    }
  }

  /** In every run: a process changes state only along its life cycle, gets a CPU only when RUNNABLE and is then
      RUNNING, leaves it only when it has given up RUNNING, and is freed only when it is off its kernel stack. */
  lemma LifeCycle(run: seq<State>, i: nat, x: nat)
    requires IsRun(run) && i + 1 < |run| && x < |run[i].pr|
    ensures x < |run[i + 1].pr| && LifeStep(run[i], run[i + 1], x)
  {
    hide State.Inv, Init, StepTo, LifeStep;
    RunInv(run, i);
    assert Linked(run, i);
    StepLife(run[i], run[i + 1], x);
  }

  predicate InExit(pc: Pc) { pc.ERep? || pc.Wake? || pc.Waking? || pc == ELock || pc == EZomb }

  /** The process is in exit, or a zombie. */
  predicate Ending(x: Process) { InExit(x.pc) || x.st == Zombie }

  /** The exit status it carries. */
  function Status(x: Process): int { if InExit(x.pc) then x.val else x.xstate }

  /** What a step does to it. */
  predicate Carries(x: Process, x': Process) {
    Ending(x') ==> (Ending(x) && Status(x') == Status(x)) || (x.pc == User && x'.pc == ERep(0))
  }

  lemma ForkCarries(s: State, p: nat, e: ForkStep, x: nat)
    requires s.Shape() && Runs(s, p) && CanFork(s, p, e) && x < |s.pr|
    requires MadeOk(s, x) && s.MakerOk(x, p) && s.StOk(p) && s.ExitOk(p)
    ensures x < |DoFork(s, p, e).pr| && Carries(s.pr[x], DoFork(s, p, e).pr[x])
  {
    hide HasWait, HasPlock, Sweeps, Woke, Swept, Scanned, Exiting, OnCpu, Alive;
  }

  lemma ExitCarries(s: State, p: nat, e: ExitStep, x: nat)
    requires s.Shape() && Runs(s, p) && CanExit(s, p, e) && x < |s.pr| && s.StOk(p) && s.ExitOk(p)
    ensures x < |DoExit(s, p, e).pr| && Carries(s.pr[x], DoExit(s, p, e).pr[x])
  {
    hide HasWait, HasPlock, Sweeps, Woke, Swept, Scanned, Alive;
  }

  lemma WaitCarries(s: State, p: nat, e: WaitStep, x: nat)
    requires s.Shape() && Runs(s, p) && CanWait(s, p, e) && x < |s.pr| && s.StOk(p) && s.ExitOk(p)
    ensures x < |DoWait(s, p, e).pr| && Carries(s.pr[x], DoWait(s, p, e).pr[x])
  {
    assert Carries(s.pr[x], s.pr[x]);
    hide CanWait, WaitChange, State.StOk, State.ExitOk, Carries;
    WaitOwn(s, p, e);
  }

  lemma WaitOwn(s: State, p: nat, e: WaitStep)
    requires s.Shape() && Runs(s, p) && CanWait(s, p, e) && s.StOk(p) && s.ExitOk(p)
    ensures var c := WaitChange(s, p, e);
            && (c.k == p || Carries(s.pr[c.k], c.it)) && Carries(s.pr[p], c.me)
  {
    hide HasWait, HasPlock, Sweeps, Woke, Swept, Scanned, Alive;
  }

  lemma YieldCarries(s: State, p: nat, e: YieldStep, x: nat)
    requires s.Shape() && Runs(s, p) && CanYield(s, p, e) && x < |s.pr| && s.StOk(p)
    ensures x < |DoYield(s, p, e).pr| && Carries(s.pr[x], DoYield(s, p, e).pr[x])
  {
    hide HasWait, HasPlock, Sweeps, Woke, Swept, Scanned, Exiting, Alive;
  }

  lemma SchedCarries(s: State, c: nat, k: nat, e: SchedStep, x: nat)
    requires s.Shape() && c < |s.cpu| && k < |s.pr| && CanSched(s, c, k, e) && x < |s.pr|
    ensures x < |DoSched(s, c, k, e).pr| && Carries(s.pr[x], DoSched(s, c, k, e).pr[x])
  {
  }

  lemma StepCarries(s: State, s': State, x: nat)
    requires s.Inv() && StepTo(s, s') && x < |s.pr|
    ensures x < |s'.pr| && Carries(s.pr[x], s'.pr[x])
  {
    hide CanFork, CanExit, CanWait, CanYield, CanSched, DoFork, DoExit, DoWait, DoYield, DoSched, Carries;
    hide State.StOk, State.MakerOk, State.ExitOk, State.PlockOk, State.UsedOk;
    InvMade(s, x);
    if p: nat, e: ForkStep :| Runs(s, p) && CanFork(s, p, e) && s' == DoFork(s, p, e) {
      assert s.MakerOk(x, p) && s.StOk(p) && s.ExitOk(p);
      ForkCarries(s, p, e, x);
    } else if p: nat, e: ExitStep :| Runs(s, p) && CanExit(s, p, e) && s' == DoExit(s, p, e) {
      assert s.StOk(p) && s.ExitOk(p);
      ExitCarries(s, p, e, x);
    } else if p: nat, e: WaitStep :| Runs(s, p) && CanWait(s, p, e) && s' == DoWait(s, p, e) {
      assert s.StOk(p) && s.ExitOk(p);
      WaitCarries(s, p, e, x);
    } else if p: nat, e: YieldStep :| Runs(s, p) && CanYield(s, p, e) && s' == DoYield(s, p, e) {
      assert s.StOk(p);
      YieldCarries(s, p, e, x);
    } else {
      var c: nat, k: nat, e: SchedStep :|
        c < |s.cpu| && k < |s.pr| && CanSched(s, c, k, e) && s' == DoSched(s, c, k, e);
      SchedCarries(s, c, k, e, x);
    }
  }

  /** Process `x` called exit at step `j`, with this status, and has been in exit or a zombie since. */
  ghost predicate CalledExit(run: seq<State>, j: nat, i: nat, x: nat, status: int) {
    && j < i < |run| && x < |run[j].pr| && x < |run[j + 1].pr|
    && run[j].pr[x].pc == User && run[j + 1].pr[x].pc == ERep(0) && run[j + 1].pr[x].val == status
    && forall m: nat | j < m <= i :: x < |run[m].pr| && Ending(run[m].pr[x])
  }

  lemma {:induction false} CarriedStatus(run: seq<State>, i: nat, x: nat) returns (j: nat)
    requires IsRun(run) && i < |run| && x < |run[i].pr| && Ending(run[i].pr[x])
    ensures CalledExit(run, j, i, x, Status(run[i].pr[x]))
  {
    hide State.Inv, StepTo;
    assert i > 0;
    hide Init;
    RunInv(run, i - 1);
    assert Linked(run, i - 1);
    SameProcs(run[i - 1], run[i]);
    StepCarries(run[i - 1], run[i], x);
    if Ending(run[i - 1].pr[x]) && Status(run[i].pr[x]) == Status(run[i - 1].pr[x]) {
      j := CarriedStatus(run, i - 1, x);
    } else {
      j := i - 1;
    }
  }

  /** Process `p` reaps `k` in this step. */
  ghost predicate ReapStep(s: State, s': State, p: nat, k: nat) {
    && |s'.pr| == |s.pr| && p < |s.pr| && k < |s.pr|
    && s.pr[p].pc.Look? && s.pr[p].pc.k == k && s'.pr[p].pc == WDone
    && s.pr[k].st == Zombie && s'.pr[k].st == Unused
  }

  lemma WaitCopies(s: State, q: nat, e: WaitStep, p: nat, k: nat)
    requires s.Shape() && Runs(s, q) && CanWait(s, q, e) && ReapStep(s, DoWait(s, q, e), p, k) && s.StOk(k)
    ensures DoWait(s, q, e).pr[p].val == Status(s.pr[k])
  {
    hide HasWait, HasPlock, Sweeps, Woke, Swept, Scanned, Alive;
    var c := WaitChange(s, q, e);
    assert c.k == q || c.it.pc == s.pr[c.k].pc;
    assert q == p;
  }

  lemma ForkNoReap(s: State, q: nat, e: ForkStep, p: nat)
    requires s.Shape() && q < |s.pr| && CanFork(s, q, e) && p < |s.pr| && s.pr[p].pc.Look?
    ensures p < |DoFork(s, q, e).pr| && DoFork(s, q, e).pr[p].pc != WDone
  {
  }

  lemma ExitNoReap(s: State, q: nat, e: ExitStep, p: nat)
    requires s.Shape() && q < |s.pr| && CanExit(s, q, e) && p < |s.pr| && s.pr[p].pc.Look?
    ensures p < |DoExit(s, q, e).pr| && DoExit(s, q, e).pr[p].pc != WDone
  {
  }

  lemma YieldNoReap(s: State, q: nat, e: YieldStep, p: nat)
    requires s.Shape() && q < |s.pr| && CanYield(s, q, e) && p < |s.pr| && s.pr[p].pc.Look?
    ensures p < |DoYield(s, q, e).pr| && DoYield(s, q, e).pr[p].pc != WDone
  {
  }

  lemma SchedNoReap(s: State, c: nat, d: nat, e: SchedStep, p: nat)
    requires s.Shape() && c < |s.cpu| && d < |s.pr| && CanSched(s, c, d, e) && p < |s.pr|
    ensures p < |DoSched(s, c, d, e).pr| && DoSched(s, c, d, e).pr[p].pc == s.pr[p].pc
  {
  }

  lemma CopiesStatus(s: State, s': State, p: nat, k: nat)
    requires s.Inv() && StepTo(s, s') && ReapStep(s, s', p, k)
    ensures s'.pr[p].val == Status(s.pr[k])
  {
    assert s.StOk(k);
    hide CanFork, CanExit, CanWait, CanYield, CanSched, DoFork, DoExit, DoWait, DoYield, DoSched;
    hide State.Inv, State.StOk, Status;
    if q: nat, e: WaitStep :| Runs(s, q) && CanWait(s, q, e) && s' == DoWait(s, q, e) {
      WaitCopies(s, q, e, p, k);
    } else if q: nat, e: ForkStep :| Runs(s, q) && CanFork(s, q, e) && s' == DoFork(s, q, e) {
      ForkNoReap(s, q, e, p);
    } else if q: nat, e: ExitStep :| Runs(s, q) && CanExit(s, q, e) && s' == DoExit(s, q, e) {
      ExitNoReap(s, q, e, p);
    } else if q: nat, e: YieldStep :| Runs(s, q) && CanYield(s, q, e) && s' == DoYield(s, q, e) {
      YieldNoReap(s, q, e, p);
    } else {
      var c: nat, d: nat, e: SchedStep :|
        c < |s.cpu| && d < |s.pr| && CanSched(s, c, d, e) && s' == DoSched(s, c, d, e);
      SchedNoReap(s, c, d, e, p);
    }
  }

  /** In every run: the status that wait copies out is the one that this child called exit with. */
  lemma ExitStatus(run: seq<State>, i: nat, p: nat, k: nat) returns (j: nat)
    requires IsRun(run) && i + 1 < |run| && ReapStep(run[i], run[i + 1], p, k)
    ensures ChildOf(run[i], k, p) && CalledExit(run, j, i, k, run[i + 1].pr[p].val)
  {
    hide State.Inv, Init, StepTo, Family, CalledExit;
    LooksAtChild(run, i, p);
    j := CarriedStatus(run, i, k);
    RunInv(run, i);
    assert Linked(run, i);
    CopiesStatus(run[i], run[i + 1], p, k);
  }
}
